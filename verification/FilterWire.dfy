/** From accepted filter text to the server: the JSON that is sent, its size, and the server's checks. */
module FilterWire {
  import opened Outcomes
  import opened Text
  import opened Numbers
  import opened FilterTypes
  import opened FilterDsl
  import opened FilterCompose
  import WhereClause

  // ---- The server's checks ----

  function ToWire(c: Condition): WhereClause.Wire {
    WhereClause.Wire(
      if c.logic.Some? then Some(c.logic.value.Text()) else None, c.not, c.column,
      if c.join.Some? then Some(c.join.value as int) else None, c.op.Text(), c.value)
  }

  function ToWires(cs: seq<Condition>): seq<WhereClause.Wire> {
    seq(|cs|, i requires 0 <= i < |cs| => ToWire(cs[i]))
  }

  datatype Invalid =
    | TooLongJson | TooManyConditions | JoinNotAllowed | LogicOnFirst | LogicMissing | LogicUnknown
    | OpUnknown | ValueMissing | ValueNotAllowed

  /** The check of condition `i`: None when it passes. */
  function CheckCondition(c: WhereClause.Wire, i: nat, allowJoin: bool): Option<Invalid> {
    if c.join.Some? && !allowJoin then Some(JoinNotAllowed)
    else if i == 0 && c.logic.Some? then Some(LogicOnFirst)
    else if i > 0 && c.logic.None? then Some(LogicMissing)
    else if c.logic.Some? && c.logic.value != "AND" && c.logic.value != "OR" then Some(LogicUnknown)
    else
      match WhereClause.ReadOp(c.op)
      case None => Some(OpUnknown)
      case Some(op) =>
        if op.TakesValue() && c.value.None? then Some(ValueMissing)
        else if !op.TakesValue() && c.value.Some? then Some(ValueNotAllowed)
        else None
  }

  /** Server-side validation of the decoded array: the first failing check, None when it is accepted. */
  method Validate(bytes: nat, cs: seq<WhereClause.Wire>, allowJoin: bool) returns (r: Option<Invalid>)
    ensures r == None <==>
              bytes <= MAX_WIRE_BYTES && |cs| <= MAX_CONDITIONS
              && forall i :: 0 <= i < |cs| ==> CheckCondition(cs[i], i, allowJoin) == None
    ensures r.Some? && bytes <= MAX_WIRE_BYTES && |cs| <= MAX_CONDITIONS ==>
              exists i :: 0 <= i < |cs| && CheckCondition(cs[i], i, allowJoin) == r
                          && forall k :: 0 <= k < i ==> CheckCondition(cs[k], k, allowJoin) == None
  {
    if bytes > MAX_WIRE_BYTES {
      return Some(TooLongJson);
    }
    if |cs| > MAX_CONDITIONS {
      return Some(TooManyConditions);
    }
    for i := 0 to |cs|
      invariant forall k :: 0 <= k < i ==> CheckCondition(cs[k], k, allowJoin) == None
    {
      var wrong := CheckCondition(cs[i], i, allowJoin);
      if wrong.Some? {
        return wrong;
      }
    }
    return None;
  }

  // ---- What an accepted condition is like ----

  predicate Emitted(c: Condition, i: nat, aliases: Option<seq<string>>) {
    && (c.logic.Some? <==> i > 0)
    && (c.value.Some? <==> c.op.TakesValue())
    && (c.join.Some? <==> aliases.Some?)
    && (c.join.Some? ==> c.join.value < |aliases.value| || c.join.value == 0)
    && IsBareName(c.column)
  }

  /** Bytes of text a condition's column and value came from. */
  function Payload(c: Condition): nat {
    Utf8Length(c.column) + if c.value.Some? then Utf8Length(c.value.value) else 0
  }

  function TotalPayload(cs: seq<Condition>): nat {
    if cs == [] then 0 else TotalPayload(cs[..|cs| - 1]) + Payload(cs[|cs| - 1])
  }

  lemma SuffixShorter(s: string, n: nat)
    requires n <= |s|
    ensures Utf8Length(s) == Utf8Length(s[..n]) + Utf8Length(s[n..])
  {
    Utf8Appends(s[..n], s[n..]);
    assert s[..n] + s[n..] == s;
  }

  lemma {:induction false} ScanShrinks(s: string, q: char)
    requires ScanQuoted(s, q).Some?
    ensures var (text, n) := ScanQuoted(s, q).value; Utf8Length(text) + Utf8Length(s[n..]) <= Utf8Length(s)
  {
    var (text, n) := ScanQuoted(s, q).value;
    if s[0] == q {
      if |s| > 1 && s[1] == q {
        ScanShrinks(s[2..], q);
        assert text == [q] + ScanQuoted(s[2..], q).value.0;
        assert s[2..][n - 2..] == s[n..];
        assert text[1..] == ScanQuoted(s[2..], q).value.0;
        assert s[1..][1..] == s[2..];
      } else {
        assert s[n..] == s[1..];
      }
    } else {
      ScanShrinks(s[1..], q);
      assert text[1..] == ScanQuoted(s[1..], q).value.0;
      assert s[1..][n - 1..] == s[n..];
    }
  }

  lemma SkipShrinks(s: string)
    ensures Utf8Length(SkipSpace(s)) <= Utf8Length(s)
  {
    SuffixShorter(s, Span(Space, s));
  }

  lemma ColumnShrinks(s: string, aliases: Option<seq<string>>)
    requires Column(s, aliases).Some?
    ensures var (name, rest) := Column(s, aliases).value;
            && Utf8Length(name.column) + Utf8Length(rest) <= Utf8Length(s) && IsBareName(name.column)
            && (name.join.Some? <==> aliases.Some?)
            && (name.join.Some? ==> name.join.value < |aliases.value| || name.join.value == 0)
  {
    if aliases.Some? && StartsWith(s, '"') {
      var (first, rest) := QuotedAlias(s).value;
      var n := ScanQuoted(s[1..], '"').value.1;
      SuffixShorter(s, n + 1);
      QualifiedShrinks(rest);
    } else {
      var (first, rest) := Name(s).value;
      Utf8Appends(first, rest);
      if StartsWith(rest, '.') {
        QualifiedShrinks(rest);
      }
    }
  }

  lemma QualifiedShrinks(rest: string)
    requires StartsWith(rest, '.') && Name(rest[1..]).Some?
    ensures var (column, rest') := Name(rest[1..]).value; Utf8Length(column) + Utf8Length(rest') <= Utf8Length(rest)
  {
    var (column, rest') := Name(rest[1..]).value;
    Utf8Appends(column, rest');
  }

  lemma ValueShrinks(s: string)
    requires ReadValue(s).Some?
    ensures var (value, rest) := ReadValue(s).value; Utf8Length(value) + Utf8Length(rest) <= Utf8Length(s)
  {
    if StartsWith(s, '\'') {
      ScanShrinks(s[1..], '\'');
      var n := ScanQuoted(s[1..], '\'').value.1;
      assert s[n + 1..] == s[1..][n..];
    } else {
      SuffixShorter(s, Span(BareValueChar, s));
    }
  }

  lemma OperatorShrinks(s: string)
    requires Operator(s).Some?
    ensures Utf8Length(Operator(s).value.1) <= Utf8Length(s)
  {
    var rest := Operator(s).value.1;
    var n := |s| - |rest|;
    assert rest == s[n..];
    SuffixShorter(s, n);
  }

  lemma NullTailShrinks(s: string)
    requires NullTail(s).Some?
    ensures Utf8Length(NullTail(s).value.1) <= Utf8Length(s) && !NullTail(s).value.0.TakesValue()
  {
    var s1 := NeedSpace(s).value;
    SkipShrinks(s);
    if KeywordAt("NOT", s1) {
      SuffixShorter(s1, 3);
      SkipShrinks(s1[3..]);
      SuffixShorter(SkipSpace(s1[3..]), 4);
    } else {
      SuffixShorter(s1, 4);
    }
  }

  lemma SimpleShrinks(s: string, aliases: Option<seq<string>>)
    requires SimpleCondition(s, aliases).Some?
    ensures var (c, rest) := SimpleCondition(s, aliases).value;
            && Payload(ToCondition(None, false, c)) + Utf8Length(rest) <= Utf8Length(s)
            && Emitted(ToCondition(None, false, c), 0, aliases)
  {
    ColumnShrinks(s, aliases);
    var (column, s1) := Column(s, aliases).value;
    var s2 := SkipSpace(s1);
    SkipShrinks(s1);
    if s2 != s1 && KeywordAt("IS", s2) {
      SuffixShorter(s2, 2);
      NullTailShrinks(s2[2..]);
    } else {
      OperatorShrinks(s2);
      var s3 := Operator(s2).value.1;
      SkipShrinks(s3);
      ValueShrinks(SkipSpace(s3));
    }
  }

  lemma ConditionShrinks(s: string, logic: Option<Logic>, aliases: Option<seq<string>>)
    requires ReadCondition(s, logic, aliases).Some?
    ensures var (c, rest) := ReadCondition(s, logic, aliases).value;
            && Payload(c) + Utf8Length(rest) <= Utf8Length(s) && c.logic == logic
            && Emitted(c.(logic := None), 0, aliases)
  {
    if KeywordAt("NOT", s) {
      SuffixShorter(s, 3);
      SkipShrinks(s[3..]);
      SimpleShrinks(SkipSpace(s[3..]), aliases);
    } else {
      SimpleShrinks(s, aliases);
    }
  }

  lemma JoinerShrinks(s: string)
    requires Joiner(s).Some?
    ensures Utf8Length(Joiner(s).value.1) <= Utf8Length(s)
  {
    var n := if KeywordAt("AND", s) then 3 else 2;
    SuffixShorter(s, n);
    SkipShrinks(s[n..]);
  }

  ghost predicate AllEmitted(cs: seq<Condition>, aliases: Option<seq<string>>) {
    forall i :: 0 <= i < |cs| ==> Emitted(cs[i], i, aliases)
  }

  lemma EmittedMore(before: seq<Condition>, c: Condition, aliases: Option<seq<string>>)
    requires AllEmitted(before, aliases) && (c.logic.Some? <==> before != []) && Emitted(c.(logic := None), 0, aliases)
    ensures AllEmitted(before + [c], aliases) && TotalPayload(before + [c]) == TotalPayload(before) + Payload(c)
  {
    assert (before + [c])[..|before|] == before;
  }

  /** Where the next condition starts, after what was read. */
  lemma NextShrinks(rest: string)
    requires Joiner(SkipSpace(rest)).Some?
    ensures Utf8Length(Joiner(SkipSpace(rest)).value.1) <= Utf8Length(rest)
  {
    SkipShrinks(rest);
    JoinerShrinks(SkipSpace(rest));
  }

  lemma {:induction false} ConditionsEmitted(
    s: string, logic: Option<Logic>, before: seq<Condition>, aliases: Option<seq<string>>)
    requires |before| <= MAX_CONDITIONS && (logic.Some? <==> before != []) && AllEmitted(before, aliases)
    requires Conditions(s, logic, before, aliases).Some?
    ensures var cs := Conditions(s, logic, before, aliases).value;
            && 1 <= |cs| <= MAX_CONDITIONS && AllEmitted(cs, aliases)
            && TotalPayload(cs) <= TotalPayload(before) + Utf8Length(s)
    decreases MAX_CONDITIONS - |before|
  {
    ConditionsGoOn(s, logic, before, aliases);
    ConditionShrinks(s, logic, aliases);
    var (c, rest) := ReadCondition(s, logic, aliases).value;
    EmittedMore(before, c, aliases);
    if SkipSpace(rest) != "" {
      NextShrinks(rest);
      var (next, s2) := Joiner(SkipSpace(rest)).value;
      ConditionsEmitted(s2, Some(next), before + [c], aliases);
    }
  }

  lemma ParseEmits(input: string, aliases: Option<seq<string>>)
    requires Parse(input, aliases).Some?
    ensures var cs := Parse(input, aliases).value;
            1 <= |cs| <= MAX_CONDITIONS && AllEmitted(cs, aliases) && TotalPayload(cs) <= MAX_TEXT_BYTES
  {
    ConditionsEmitted(input, None, [], aliases);
    TooLongCountsBytes(input);
  }

  /** Every condition the filter parser emits passes the server's check of it. */
  lemma EmittedPasses(c: Condition, i: nat, aliases: Option<seq<string>>)
    requires Emitted(c, i, aliases)
    ensures CheckCondition(ToWire(c), i, aliases.Some?) == None
  {
    WhereClause.ReadOpText(c.op);
  }

  // ---- JSON ----

  function Hex(n: nat): char
    requires n < 16
  {
    if n < 10 then '0' + n as char else 'a' + (n - 10) as char
  }

  /** A character inside a JSON string (section 7 of RFC 8259), escaped as JSON.stringify does. */
  function JsonChar(c: char): string {
    if c == '"' then "\\\"" else if c == '\\' then "\\\\"
    else if c == '\U{8}' then "\\b" else if c == '\U{C}' then "\\f"
    else if c == '\n' then "\\n" else if c == '\r' then "\\r" else if c == '\t' then "\\t"
    else if c < ' ' then "\\u00" + [Hex(c as int / 16), Hex(c as int % 16)]
    else [c]
  }

  function JsonChars(s: string): string {
    if s == "" then "" else JsonChar(s[0]) + JsonChars(s[1..])
  }

  function JsonString(s: string): string {
    "\"" + JsonChars(s) + "\""
  }

  function JsonLogic(logic: Option<Logic>): string {
    if logic.Some? then "\"logic\":\"" + logic.value.Text() + "\"," else ""
  }

  function JsonNot(not: bool): string {
    if not then "\"not\":true," else ""
  }

  function JsonStart(logic: Option<Logic>, not: bool): string {
    "{" + (JsonLogic(logic) + (JsonNot(not) + "\"column\":"))
  }

  function JsonJoinAndOp(join: Option<nat>, op: Op): string {
    (if join.Some? then ",\"join\":" + Decimal(join.value) else "") + (",\"op\":\"" + op.Text() + "\"")
  }

  function JsonValue(value: Option<string>): string {
    if value.Some? then ",\"value\":" + JsonString(value.value) else ""
  }

  /** One condition, its optional fields left out. */
  function JsonCondition(c: Condition): string {
    JsonStart(c.logic, c.not) + (JsonString(c.column) + (JsonJoinAndOp(c.join, c.op) + (JsonValue(c.value) + "}")))
  }

  function JsonConditions(cs: seq<Condition>): seq<string> {
    seq(|cs|, i requires 0 <= i < |cs| => JsonCondition(cs[i]))
  }

  /** What is sent for a filter. */
  function Json(cs: seq<Condition>): string {
    "[" + JoinWith(JsonConditions(cs), ",") + "]"
  }

  lemma {:induction false} JsonGrows(s: string)
    ensures Utf8Length(JsonChars(s)) <= 6 * Utf8Length(s)
  {
    if s != "" {
      JsonGrows(s[1..]);
      Utf8Appends(JsonChar(s[0]), JsonChars(s[1..]));
      CharGrows(s[0]);
    }
  }

  lemma CharGrows(c: char)
    ensures Utf8Length(JsonChar(c)) <= 6 * Utf8Bytes(c)
  {
    var j := JsonChar(c);
    if j != [c] {
      AsciiLength(j);
    } else {
      assert [c][1..] == "";
    }
  }

  lemma {:induction false} NameUnchanged(s: string)
    requires forall i :: 0 <= i < |s| ==> IsNameChar(s[i])
    ensures JsonChars(s) == s
  {
    if s != "" {
      NameUnchanged(s[1..]);
    }
  }

  const CONDITION_OVERHEAD := 80

  lemma ConditionSize(c: Condition)
    requires IsBareName(c.column) && (c.join.Some? ==> c.join.value < 10)
    ensures Utf8Length(JsonCondition(c)) <= CONDITION_OVERHEAD + 6 * Payload(c)
  {
    var column, middle, value := JsonString(c.column), JsonJoinAndOp(c.join, c.op), JsonValue(c.value);
    StartSize(c.logic, c.not);
    MiddleSize(c.join, c.op);
    ValueSize(c.value);
    NameUnchanged(c.column);
    StringSize(c.column);
    Utf8Appends(value, "}");
    Utf8Appends(middle, value + "}");
    Utf8Appends(column, middle + (value + "}"));
    Utf8Appends(JsonStart(c.logic, c.not), column + (middle + (value + "}")));
    AsciiLength("}");
  }

  lemma LogicSize(logic: Option<Logic>)
    ensures Utf8Length(JsonLogic(logic)) <= 14
  {
    AsciiLength(JsonLogic(logic));
  }

  lemma NotSize(not: bool)
    ensures Utf8Length(JsonNot(not)) <= 11
  {
    AsciiLength(JsonNot(not));
  }

  lemma StartSize(logic: Option<Logic>, not: bool)
    ensures Utf8Length(JsonStart(logic, not)) <= 35
  {
    var column := "\"column\":";
    Utf8Appends("{", JsonLogic(logic) + (JsonNot(not) + column));
    Utf8Appends(JsonLogic(logic), JsonNot(not) + column);
    Utf8Appends(JsonNot(not), column);
    LogicSize(logic);
    NotSize(not);
    AsciiLength("{");
    AsciiLength(column);
  }

  lemma OpSize(op: Op)
    ensures Utf8Length(op.Text()) <= 11
  {
    AsciiLength(op.Text());
  }

  lemma OpFieldSize(op: Op)
    ensures Utf8Length(",\"op\":\"" + op.Text() + "\"") <= 19
  {
    Utf8Appends(",\"op\":\"" + op.Text(), "\"");
    Utf8Appends(",\"op\":\"", op.Text());
    AsciiLength(",\"op\":\"");
    AsciiLength("\"");
    OpSize(op);
  }

  lemma JoinFieldSize(join: nat)
    requires join < 10
    ensures Utf8Length(",\"join\":" + Decimal(join)) == 9
  {
    DecimalDigit(join);
    Utf8Appends(",\"join\":", Decimal(join));
    AsciiLength(",\"join\":");
    AsciiLength(Decimal(join));
  }

  lemma MiddleSize(join: Option<nat>, op: Op)
    requires join.Some? ==> join.value < 10
    ensures Utf8Length(JsonJoinAndOp(join, op)) <= 28
  {
    var field := if join.Some? then ",\"join\":" + Decimal(join.value) else "";
    Utf8Appends(field, ",\"op\":\"" + op.Text() + "\"");
    OpFieldSize(op);
    if join.Some? {
      JoinFieldSize(join.value);
    }
  }

  lemma StringSize(s: string)
    ensures Utf8Length(JsonString(s)) == 2 + Utf8Length(JsonChars(s))
  {
    var chars := JsonChars(s);
    assert JsonString(s) == "\"" + (chars + "\"");
    Utf8Appends("\"", chars + "\"");
    Utf8Appends(chars, "\"");
    AsciiLength("\"");
  }

  lemma ValueSize(value: Option<string>)
    ensures Utf8Length(JsonValue(value)) <= 11 + if value.Some? then 6 * Utf8Length(value.value) else 0
  {
    if value.Some? {
      Utf8Appends(",\"value\":", JsonString(value.value));
      AsciiLength(",\"value\":");
      StringSize(value.value);
      JsonGrows(value.value);
    }
  }

  lemma {:induction false} JoinedSize(cs: seq<Condition>, i: nat)
    requires i <= |cs| && forall k :: 0 <= k < |cs| ==> IsBareName(cs[k].column) && (cs[k].join.Some? ==> cs[k].join.value < 10)
    ensures Utf8Length(JoinWith(JsonConditions(cs)[i..], ",")) + 6 * TotalPayload(cs[..i])
         <= (|cs| - i) * (CONDITION_OVERHEAD + 1) + 6 * TotalPayload(cs)
    decreases |cs| - i
  {
    var parts := JsonConditions(cs)[i..];
    if i == |cs| {
      assert cs[..i] == cs;
    } else {
      ConditionSize(cs[i]);
      JoinedSize(cs, i + 1);
      assert cs[..i + 1][..i] == cs[..i];
      assert parts[1..] == JsonConditions(cs)[i + 1..];
      if i + 1 < |cs| {
        var rest := JoinWith(parts[1..], ",");
        Utf8Appends(parts[0] + ",", rest);
        Utf8Appends(parts[0], ",");
        AsciiLength(",");
      } else {
        assert cs[..i + 1] == cs;
      }
    }
  }

  /**
   * Whatever the text and the values in it, an accepted filter in a view of at
   * most ten tables passes every check of the server, its size included.
   */
  lemma AcceptedFilterIsValid(input: string, aliases: Option<seq<string>>)
    requires Parse(input, aliases).Some? && (aliases.Some? ==> |aliases.value| <= 10)
    ensures var cs := Parse(input, aliases).value;
            && Utf8Length(Json(cs)) <= MAX_WIRE_BYTES && |ToWires(cs)| <= MAX_CONDITIONS
            && forall i :: 0 <= i < |cs| ==> CheckCondition(ToWires(cs)[i], i, aliases.Some?) == None
  {
    var cs := Parse(input, aliases).value;
    ParseEmits(input, aliases);
    forall i | 0 <= i < |cs|
      ensures CheckCondition(ToWires(cs)[i], i, aliases.Some?) == None
    {
      EmittedPasses(cs[i], i, aliases);
    }
    JsonSize(cs);
  }

  lemma JsonSize(cs: seq<Condition>)
    requires |cs| <= MAX_CONDITIONS && TotalPayload(cs) <= MAX_TEXT_BYTES
    requires forall k :: 0 <= k < |cs| ==> IsBareName(cs[k].column) && (cs[k].join.Some? ==> cs[k].join.value < 10)
    ensures Utf8Length(Json(cs)) <= MAX_WIRE_BYTES
  {
    JoinedSize(cs, 0);
    assert JsonConditions(cs)[0..] == JsonConditions(cs) && cs[..0] == [];
    BracketSize(JoinWith(JsonConditions(cs), ","));
  }

  lemma BracketSize(inner: string)
    ensures Utf8Length("[" + inner + "]") == 2 + Utf8Length(inner)
  {
    assert "[" + inner + "]" == "[" + (inner + "]");
    Utf8Appends("[", inner + "]");
    Utf8Appends(inner, "]");
    AsciiLength("[");
    AsciiLength("]");
  }
}

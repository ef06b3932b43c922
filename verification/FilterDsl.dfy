/** The filter language as functions of the text still to be read. */
module FilterDsl {
  import opened Outcomes
  import opened Text
  import opened FilterTypes

  // ---- Length ----

  function Utf8Bytes(c: char): nat {
    if c < '\U{80}' then 1 else if c < '\U{800}' then 2 else if c < '\U{10000}' then 3 else 4
  }

  function Utf16Units(c: char): nat {
    if c < '\U{10000}' then 1 else 2
  }

  function Utf8Length(s: string): nat {
    if s == "" then 0 else Utf8Bytes(s[0]) + Utf8Length(s[1..])
  }

  function Utf16Length(s: string): nat {
    if s == "" then 0 else Utf16Units(s[0]) + Utf16Length(s[1..])
  }

  /** Counts bytes only where the number of UTF-16 units does not settle it. */
  predicate TooLong(text: string) {
    || Utf16Length(text) > MAX_TEXT_BYTES
    || (Utf16Length(text) * 3 > MAX_TEXT_BYTES && Utf8Length(text) > MAX_TEXT_BYTES)
  }

  lemma {:induction false} UnitsBoundBytes(s: string)
    ensures Utf16Length(s) <= Utf8Length(s) <= 3 * Utf16Length(s)
  {
    if s != "" {
      UnitsBoundBytes(s[1..]);
    }
  }

  /** The shortcut never changes the answer. */
  lemma TooLongCountsBytes(text: string)
    ensures TooLong(text) <==> Utf8Length(text) > MAX_TEXT_BYTES
  {
    UnitsBoundBytes(text);
  }

  // ---- Words ----

  /** Letters and digits outside ASCII: any set at all. */
  const OTHER_LETTERS: set<char>

  /** What cannot follow a keyword directly. */
  predicate IsWordChar(c: char) {
    IsNameChar(c) || (c >= '\U{80}' && !IsSpace(c) && c in OTHER_LETTERS)
  }

  predicate StartsWith(s: string, c: char) {
    s != "" && s[0] == c
  }

  predicate KeywordAt(keyword: string, s: string) {
    && |keyword| <= |s|
    && (forall i :: 0 <= i < |keyword| ==> UpperAscii(s[i]) == keyword[i])
    && (|s| == |keyword| || !IsWordChar(s[|keyword|]))
  }

  predicate IsLogicWord(s: string) {
    Upper(s) == "AND" || Upper(s) == "OR" || Upper(s) == "NOT"
  }

  function SkipSpace(s: string): string {
    s[Span(Space, s)..]
  }

  function NeedSpace(s: string): Option<string> {
    if Span(Space, s) == 0 then None else Some(SkipSpace(s))
  }

  // ---- Columns ----

  function Name(s: string): (r: Option<(string, string)>)
    ensures r.Some? ==> r.value.0 + r.value.1 == s && IsBareName(r.value.0)
  {
    if s == "" || !IsNameStart(s[0]) then None
    else
      var n := 1 + Span(NameChar, s[1..]);
      assert forall i :: 1 <= i < n ==> s[i] == s[1..][i - 1];
      Some((s[..n], s[n..]))
  }

  /** A table alias in quotes; it cannot be empty. */
  function QuotedAlias(s: string): Option<(string, string)>
    requires StartsWith(s, '"')
  {
    match ScanQuoted(s[1..], '"')
    case None => None
    case Some((name, n)) => if name == "" then None else Some((name, s[n + 1..]))
  }

  function IndexOf(aliases: seq<string>, name: string): (r: Option<nat>)
    ensures r.Some? ==> r.value < |aliases| && aliases[r.value] == name && name !in aliases[..r.value]
    ensures r.None? ==> name !in aliases
  {
    if aliases == [] then None
    else if aliases[0] == name then Some(0)
    else
      match IndexOf(aliases[1..], name)
      case None => None
      case Some(i) =>
        assert aliases[..i + 1] == [aliases[0]] + aliases[1..][..i];
        Some(i + 1)
  }

  lemma {:induction false} IndexOfIs(names: seq<string>, i: nat)
    requires i < |names| && forall k :: 0 <= k < i ==> names[k] != names[i]
    ensures IndexOf(names, names[i]) == Some(i)
  {
    if i > 0 {
      assert names[0] != names[i];
      IndexOfIs(names[1..], i - 1);
    }
  }

  datatype ColumnName = ColumnName(column: string, join: Option<nat>)

  /** A column read from the start of `s`; its qualifier, if any, must be one of `aliases`. */
  function Column(s: string, aliases: Option<seq<string>>): Option<(ColumnName, string)> {
    var quoted := aliases.Some? && StartsWith(s, '"');
    match if quoted then QuotedAlias(s) else Name(s)
    case None => None
    case Some((first, rest)) =>
      if !quoted && !StartsWith(rest, '.') then
        Some((ColumnName(first, if aliases.Some? then Some(0) else None), rest))
      else if aliases.None? || !StartsWith(rest, '.') then None
      else
        match Name(rest[1..])
        case None => None
        case Some((column, rest')) =>
          var join := IndexOf(aliases.value, first);
          if StartsWith(rest', '.') || join.None? then None else Some((ColumnName(column, join), rest'))
  }

  // ---- Operators and values ----

  function Operator(s: string): (r: Option<(Op, string)>)
    ensures r.Some? ==> r.value.0.TakesValue() && |r.value.1| < |s|
  {
    if KeywordAt("ILIKE", s) then Some((ILike, s[5..]))
    else if KeywordAt("LIKE", s) then Some((Like, s[4..]))
    else if s == "" then None
    else if |s| > 1 && s[1] == '=' && (s[0] == '>' || s[0] == '<' || s[0] == '!') then
      Some((if s[0] == '>' then Ge else if s[0] == '<' then Le else Ne, s[2..]))
    else if s[0] == '>' then Some((Gt, s[1..]))
    else if s[0] == '<' then Some((Lt, s[1..]))
    else if s[0] == '=' then Some((Eq, s[1..]))
    else None
  }

  function QuotedValue(s: string): Option<(string, string)>
    requires StartsWith(s, '\'')
  {
    match ScanQuoted(s[1..], '\'')
    case None => None
    case Some((value, n)) => Some((value, s[n + 1..]))
  }

  /** AND, OR and NOT are never values unless quoted. */
  function BareValue(s: string): Option<(string, string)> {
    var n := Span(BareValueChar, s);
    if n == 0 || IsLogicWord(s[..n]) then None else Some((s[..n], s[n..]))
  }

  function ReadValue(s: string): Option<(string, string)> {
    if StartsWith(s, '\'') then QuotedValue(s) else BareValue(s)
  }

  // ---- Conditions ----

  /** A comparison or a null test, whatever comes before it. */
  datatype Simple = Simple(column: ColumnName, op: Op, value: Option<string>)

  /** IS [NOT] NULL, from just after IS. */
  function NullTail(s: string): Option<(Op, string)> {
    match NeedSpace(s)
    case None => None
    case Some(s1) =>
      if KeywordAt("NOT", s1) then
        match NeedSpace(s1[3..])
        case None => None
        case Some(s2) => if KeywordAt("NULL", s2) then Some((IsNotNull, s2[4..])) else None
      else if KeywordAt("NULL", s1) then Some((IsNull, s1[4..]))
      else None
  }

  function Comparison(column: ColumnName, s: string): Option<(Simple, string)> {
    match Operator(SkipSpace(s))
    case None => None
    case Some((op, s1)) =>
      match ReadValue(SkipSpace(s1))
      case None => None
      case Some((value, rest)) => Some((Simple(column, op, Some(value)), rest))
  }

  function SimpleCondition(s: string, aliases: Option<seq<string>>): Option<(Simple, string)> {
    match Column(s, aliases)
    case None => None
    case Some((column, s1)) =>
      var s2 := SkipSpace(s1);
      if s2 != s1 && KeywordAt("IS", s2) then
        match NullTail(s2[2..])
        case None => None
        case Some((op, rest)) => Some((Simple(column, op, None), rest))
      else Comparison(column, s1)
  }

  function ToCondition(logic: Option<Logic>, not: bool, simple: Simple): Condition {
    Condition(logic, not, simple.column.column, simple.column.join, simple.op, simple.value)
  }

  function ReadCondition(s: string, logic: Option<Logic>, aliases: Option<seq<string>>): Option<(Condition, string)> {
    var not := KeywordAt("NOT", s);
    match if not then NeedSpace(s[3..]) else Some(s)
    case None => None
    case Some(s1) =>
      match SimpleCondition(s1, aliases)
      case None => None
      case Some((simple, rest)) => Some((ToCondition(logic, not, simple), rest))
  }

  /** AND or OR, and where the next condition starts. */
  function Joiner(s: string): Option<(Logic, string)> {
    if KeywordAt("AND", s) then
      match NeedSpace(s[3..]) case None => None case Some(rest) => Some((And, rest))
    else if KeywordAt("OR", s) then
      match NeedSpace(s[2..]) case None => None case Some(rest) => Some((Or, rest))
    else None
  }

  /** The conditions from `s` on, after those in `before`; `logic` joins the next one to them. */
  function Conditions(s: string, logic: Option<Logic>, before: seq<Condition>, aliases: Option<seq<string>>)
    : Option<seq<Condition>>
    requires |before| <= MAX_CONDITIONS
    decreases MAX_CONDITIONS - |before|
  {
    match ReadCondition(s, logic, aliases)
    case None => None
    case Some((c, rest)) =>
      if |before| + 1 > MAX_CONDITIONS then None
      else if rest == "" then Some(before + [c])
      else
        match NeedSpace(rest)
        case None => None
        case Some(s1) =>
          if s1 == "" then Some(before + [c])
          else
            match Joiner(s1)
            case None => None
            case Some((next, s2)) => Conditions(s2, Some(next), before + [c], aliases)
  }

  lemma NoSkip(s: string)
    requires s == "" || !IsSpace(s[0])
    ensures SkipSpace(s) == s
  {
    SpanIs(Space, s, 0);
    assert s[0..] == s;
  }

  /** How the parser goes on after a condition. */
  lemma ConditionsGoOn(s: string, logic: Option<Logic>, before: seq<Condition>, aliases: Option<seq<string>>)
    requires |before| <= MAX_CONDITIONS && Conditions(s, logic, before, aliases).Some?
    ensures ReadCondition(s, logic, aliases).Some? && |before| < MAX_CONDITIONS
    ensures var (c, rest) := ReadCondition(s, logic, aliases).value;
            var t := SkipSpace(rest);
            if t == "" then Conditions(s, logic, before, aliases) == Some(before + [c])
            else
              && Joiner(t).Some?
              && var (next, s2) := Joiner(t).value;
                 Conditions(s, logic, before, aliases) == Conditions(s2, Some(next), before + [c], aliases)
  {
    var (c, rest) := ReadCondition(s, logic, aliases).value;
    if rest == "" {
      NoSkip(rest);
    }
  }

  /** What a filter text means; None when it is refused. */
  function Parse(input: string, aliases: Option<seq<string>>): Option<seq<Condition>> {
    if TooLong(input) then None else Conditions(input, None, [], aliases)
  }
}

/** Composed filter clauses read back as what they were composed from. */
module FilterCompose {
  import opened Outcomes
  import opened Text
  import opened FilterTypes
  import opened FilterDsl

  // ---- Composing ----

  predicate NeedsQuotes(value: string) {
    value == "" || IsLogicWord(value) || exists i :: 0 <= i < |value| && !BareValueChar.Has(value[i])
  }

  function QuoteValue(value: string): string {
    if NeedsQuotes(value) then Enclosed(value, '\'') else value
  }

  /** `column op value`; a null test takes no value. */
  function Clause(column: string, op: Op, value: Option<string>): string {
    if value.None? then column + (" " + op.Text()) else column + (" " + op.Text() + " " + QuoteValue(value.value))
  }

  datatype KeyValue = KeyValue(column: string, value: string)

  function EqClauses(pairs: seq<KeyValue>): seq<string> {
    seq(|pairs|, i requires 0 <= i < |pairs| => Clause(pairs[i].column, Eq, Some(pairs[i].value)))
  }

  /** AND of `column = value`. */
  function Clauses(pairs: seq<KeyValue>): string {
    JoinWith(EqClauses(pairs), " AND ")
  }

  /** The clause for a cell: a null test, or a comparison where that is short enough; None where it is not. */
  function EqClause(column: string, cell: Option<string>): Option<string> {
    if cell.None? then Some(Clause(column, IsNull, None))
    else if TooLong(cell.value) then None
    else
      var clause := Clause(column, Eq, cell);
      if TooLong(clause) then None else Some(clause)
  }

  // ---- What a clause is followed by ----

  predicate Ends(rest: string) {
    rest == "" || rest[0] == ' '
  }

  /** `key`, followed by a space, is read as the column `name` and never as NOT. */
  ghost predicate IsKey(key: string, name: ColumnName, aliases: Option<seq<string>>) {
    && key != "" && !IsSpace(key[0])
    && forall rest :: rest != "" && Ends(rest) ==>
      Column(key + rest, aliases) == Some((name, rest)) && !KeywordAt("NOT", key + rest)
  }

  lemma NameRead(name: string, rest: string)
    requires IsBareName(name) && (rest == "" || !IsNameChar(rest[0]))
    ensures Name(name + rest) == Some((name, rest))
  {
    var s := name + rest;
    assert s[1..] == name[1..] + rest;
    SpanIs(NameChar, s[1..], |name| - 1);
    assert s[..|name|] == name && s[|name|..] == rest;
  }

  /** A bare name followed by no name character is the keyword NOT only if it spells it. */
  lemma NotSpelled(name: string, rest: string)
    requires IsBareName(name) && Upper(name) != "NOT" && rest != "" && !IsNameChar(rest[0])
    ensures !KeywordAt("NOT", name + rest)
  {
    var s := name + rest;
    if |name| < 3 {
      assert s[|name|] == rest[0];
      assert UpperAscii(rest[0]) != "NOT"[|name|];
    } else if |name| > 3 {
      assert s[3] == name[3];
    } else {
      var i :| 0 <= i < 3 && Upper(name)[i] != "NOT"[i];
      assert s[i] == name[i];
    }
  }

  predicate IsUpperWord(word: string) {
    forall i :: 0 <= i < |word| ==> 'A' <= word[i] <= 'Z'
  }

  lemma KeywordRead(word: string, rest: string)
    requires IsUpperWord(word) && Ends(rest)
    ensures KeywordAt(word, word + rest) && (word + rest)[|word|..] == rest
  {
  }

  lemma QualifiedColumn(
    s: string, aliases: seq<string>, name: string, after: string, column: string, rest: string, join: nat)
    requires (if StartsWith(s, '"') then QuotedAlias(s) else Name(s)) == Some((name, "." + after))
    requires Name(after) == Some((column, rest)) && !StartsWith(rest, '.') && IndexOf(aliases, name) == Some(join)
    ensures Column(s, Some(aliases)) == Some((ColumnName(column, Some(join)), rest))
  {
    assert ("." + after)[1..] == after;
  }

  /** A bare column, other than one spelled NOT, in either kind of view. */
  lemma BareColumnIsKey(column: string, aliases: Option<seq<string>>)
    requires IsBareName(column) && Upper(column) != "NOT"
    ensures IsKey(column, ColumnName(column, if aliases.Some? then Some(0) else None), aliases)
  {
    forall rest | rest != "" && Ends(rest)
      ensures Column(column + rest, aliases)
           == Some((ColumnName(column, if aliases.Some? then Some(0) else None), rest))
      ensures !KeywordAt("NOT", column + rest)
    {
      NameRead(column, rest);
      NotSpelled(column, rest);
      assert (column + rest)[0] == column[0];
    }
  }

  // ---- Reading values and operators back ----

  lemma QuotedRead(value: string, rest: string, s: string)
    requires Ends(rest) && s == Enclosed(value, '\'') + rest
    ensures ReadValue(s) == Some((value, rest)) && s[0] == '\''
  {
    var d := Doubled(value, '\'');
    assert s[1..] == d + ['\''] + rest;
    ScanDoubled(value, '\'', rest);
    assert s[|d| + 2..] == rest;
  }

  lemma BareRead(value: string, rest: string, s: string)
    requires Ends(rest) && s == value + rest && !NeedsQuotes(value)
    ensures ReadValue(s) == Some((value, rest)) && !IsSpace(s[0])
  {
    SpanIs(BareValueChar, s, |value|);
    assert s[..|value|] == value && s[|value|..] == rest;
  }

  lemma ValueRead(value: string, rest: string)
    requires Ends(rest)
    ensures ReadValue(QuoteValue(value) + rest) == Some((value, rest))
    ensures QuoteValue(value) != "" && !IsSpace(QuoteValue(value)[0])
  {
    var s := QuoteValue(value) + rest;
    if NeedsQuotes(value) {
      QuotedRead(value, rest, s);
    } else {
      BareRead(value, rest, s);
    }
    assert QuoteValue(value) != "" && QuoteValue(value)[0] == s[0];
  }

  lemma SkipOne(s: string)
    requires s != "" && !IsSpace(s[0])
    ensures SkipSpace(" " + s) == s && SkipSpace(s) == s && NeedSpace(" " + s) == Some(s)
  {
    SpanIs(Space, " " + s, 1);
    SpanIs(Space, s, 0);
    assert (" " + s)[1..] == s;
  }

  lemma OperatorRead(op: Op, rest: string)
    requires op.TakesValue()
    ensures var s := op.Text() + " " + rest;
            Operator(s) == Some((op, " " + rest)) && !IsSpace(s[0]) && !KeywordAt("IS", s)
  {
    var s := op.Text() + " " + rest;
    assert s[|op.Text()|..] == " " + rest;
    assert s[1] == if |op.Text()| == 1 then ' ' else op.Text()[1];
    if op.Like? {
      assert forall i :: 0 <= i < 4 ==> s[i] == "LIKE"[i];
      assert s[4] == ' ';
      assert UpperAscii(s[0]) != "ILIKE"[0] && UpperAscii(s[0]) != "IS"[0];
    } else if op.ILike? {
      assert forall i :: 0 <= i < 5 ==> s[i] == "ILIKE"[i];
      assert s[5] == ' ';
      assert UpperAscii(s[1]) != "IS"[1];
    } else {
      assert UpperAscii(s[0]) != "ILIKE"[0] && UpperAscii(s[0]) != "LIKE"[0] && UpperAscii(s[0]) != "IS"[0];
    }
  }

  /** A word read as itself is not read as one that differs in its second letter. */
  lemma OtherKeyword(word: string, other: string, s: string)
    requires KeywordAt(word, s) && |word| > 1 && |other| > 1 && word[1] != other[1]
    ensures !KeywordAt(other, s)
  {
  }

  lemma UpperStart(word: string, s: string)
    requires IsUpperWord(word) && word != "" && KeywordAt(word, s)
    ensures s != "" && !IsSpace(s[0])
  {
    assert UpperAscii(s[0]) == word[0];
  }

  lemma NullRead(tail: string, rest: string)
    requires tail == "NULL" + rest && Ends(rest)
    ensures KeywordAt("NULL", tail) && tail[4..] == rest && !KeywordAt("NOT", tail)
    ensures tail != "" && !IsSpace(tail[0]) && NeedSpace(" " + tail) == Some(tail)
  {
    KeywordRead("NULL", rest);
    OtherKeyword("NULL", "NOT", tail);
    UpperStart("NULL", tail);
    SkipOne(tail);
  }

  lemma NotStarts(s1: string, after: string)
    requires s1 == "NOT" + after && Ends(after)
    ensures KeywordAt("NOT", s1) && s1[3..] == after && s1 != "" && !IsSpace(s1[0])
  {
    KeywordRead("NOT", after);
    UpperStart("NOT", s1);
  }

  lemma NotRead(s1: string, tail: string)
    requires s1 == "NOT" + (" " + tail) && tail != "" && !IsSpace(tail[0])
    ensures KeywordAt("NOT", s1) && NeedSpace(s1[3..]) == Some(tail) && NeedSpace(" " + s1) == Some(s1)
  {
    NotStarts(s1, " " + tail);
    SkipOne(tail);
    SkipOne(s1);
  }

  lemma IsNullRead(tail: string, rest: string)
    requires tail == "NULL" + rest && Ends(rest)
    ensures NullTail(" " + tail) == Some((IsNull, rest))
  {
    NullRead(tail, rest);
  }

  lemma IsNotNullRead(s1: string, tail: string, rest: string)
    requires tail == "NULL" + rest && Ends(rest) && s1 == "NOT" + (" " + tail)
    ensures NullTail(" " + s1) == Some((IsNotNull, rest))
  {
    NullRead(tail, rest);
    NotRead(s1, tail);
    NotNullStep(" " + s1, s1, tail, rest);
  }

  lemma NotNullStep(s: string, s1: string, tail: string, rest: string)
    requires NeedSpace(s) == Some(s1) && KeywordAt("NOT", s1) && NeedSpace(s1[3..]) == Some(tail)
    requires KeywordAt("NULL", tail) && tail[4..] == rest
    ensures NullTail(s) == Some((IsNotNull, rest))
  {
  }

  lemma NullTailRead(op: Op, rest: string)
    requires !op.TakesValue() && Ends(rest)
    ensures var s := op.Text() + rest;
            KeywordAt("IS", s) && !IsSpace(s[0]) && NullTail(s[2..]) == Some((op, rest))
  {
    var tail := "NULL" + rest;
    if op.IsNull? {
      IsNullRead(tail, rest);
      IsNullText(rest);
      IsRead(op.Text() + rest, tail);
    } else {
      var notTail := "NOT" + (" " + tail);
      IsNotNullRead(notTail, tail, rest);
      IsNotNullText(rest);
      IsRead(op.Text() + rest, notTail);
    }
  }

  lemma IsNullText(rest: string)
    ensures "IS NULL" + rest == "IS" + (" " + ("NULL" + rest))
  {
    assert "IS NULL" == "IS" + " " + "NULL";
    ConcatAssoc("IS" + " ", "NULL", rest);
    ConcatAssoc("IS", " ", "NULL" + rest);
  }

  lemma IsNotNullText(rest: string)
    ensures "IS NOT NULL" + rest == "IS" + (" " + ("NOT" + (" " + ("NULL" + rest))))
  {
    assert "IS NOT NULL" == "IS" + " " + "NOT" + " " + "NULL";
    ConcatAssoc("IS" + " " + "NOT" + " ", "NULL", rest);
    ConcatAssoc("IS" + " " + "NOT", " ", "NULL" + rest);
    ConcatAssoc("IS" + " ", "NOT", " " + ("NULL" + rest));
    ConcatAssoc("IS", " ", "NOT" + (" " + ("NULL" + rest)));
  }

  lemma IsRead(s: string, tail: string)
    requires s == "IS" + (" " + tail)
    ensures KeywordAt("IS", s) && s[2..] == " " + tail && s[0] == 'I'
  {
    KeywordRead("IS", " " + tail);
  }

  /** A composed clause is read as exactly the condition it was composed from. */
  lemma ClauseRead(
    key: string, name: ColumnName, op: Op, value: Option<string>, rest: string, logic: Option<Logic>,
    aliases: Option<seq<string>>)
    requires IsKey(key, name, aliases) && op.TakesValue() == value.Some? && Ends(rest)
    ensures ReadCondition(Clause(key, op, value) + rest, logic, aliases)
         == Some((Condition(logic, false, name.column, name.join, op, value), rest))
  {
    if value.None? {
      NullClauseRead(key, name, op, rest, aliases);
    } else {
      CompareClauseRead(key, name, op, value.value, rest, aliases);
    }
    var s := Clause(key, op, value) + rest;
    assert !KeywordAt("NOT", s);
  }

  lemma KeyRead(s: string, key: string, name: ColumnName, after: string, aliases: Option<seq<string>>)
    requires IsKey(key, name, aliases) && s == key + (" " + after)
    ensures Column(s, aliases) == Some((name, " " + after)) && !KeywordAt("NOT", s)
  {
  }

  lemma NullClauseRead(key: string, name: ColumnName, op: Op, rest: string, aliases: Option<seq<string>>)
    requires IsKey(key, name, aliases) && !op.TakesValue() && Ends(rest)
    ensures SimpleCondition(Clause(key, op, None) + rest, aliases) == Some((Simple(name, op, None), rest))
    ensures !KeywordAt("NOT", Clause(key, op, None) + rest)
  {
    var after := op.Text() + rest;
    NullClauseSplit(key, op.Text(), rest);
    NullTailRead(op, rest);
    SkipOne(after);
    KeyRead(key + (" " + after), key, name, after, aliases);
    NullConditionRead(key + (" " + after), name, op, after, rest, aliases);
  }

  lemma NullClauseSplit(key: string, op: string, rest: string)
    ensures key + (" " + op) + rest == key + (" " + (op + rest))
  {
    ConcatAssoc(key, " " + op, rest);
    ConcatAssoc(" ", op, rest);
  }

  lemma CompareClauseRead(
    key: string, name: ColumnName, op: Op, value: string, rest: string, aliases: Option<seq<string>>)
    requires IsKey(key, name, aliases) && op.TakesValue() && Ends(rest)
    ensures SimpleCondition(Clause(key, op, Some(value)) + rest, aliases) == Some((Simple(name, op, Some(value)), rest))
    ensures !KeywordAt("NOT", Clause(key, op, Some(value)) + rest)
  {
    var tail := QuoteValue(value) + rest;
    var after := op.Text() + " " + tail;
    ClauseSplit(key, op.Text(), QuoteValue(value), rest);
    ValueRead(value, rest);
    OperatorRead(op, tail);
    SkipOne(after);
    SkipOne(tail);
    KeyRead(key + (" " + after), key, name, after, aliases);
    ComparisonRead(key + (" " + after), name, op, value, after, tail, rest, aliases);
  }

  lemma ClauseSplit(key: string, op: string, value: string, rest: string)
    ensures key + (" " + op + " " + value) + rest == key + (" " + (op + " " + (value + rest)))
  {
  }

  lemma NullConditionRead(
    s: string, name: ColumnName, op: Op, after: string, rest: string, aliases: Option<seq<string>>)
    requires Column(s, aliases) == Some((name, " " + after)) && SkipSpace(" " + after) == after
    requires KeywordAt("IS", after) && NullTail(after[2..]) == Some((op, rest))
    ensures SimpleCondition(s, aliases) == Some((Simple(name, op, None), rest))
  {
    assert |" " + after| == |after| + 1;
  }

  lemma ComparisonRead(
    s: string, name: ColumnName, op: Op, value: string, after: string, tail: string, rest: string,
    aliases: Option<seq<string>>)
    requires Column(s, aliases) == Some((name, " " + after)) && SkipSpace(" " + after) == after
    requires !KeywordAt("IS", after) && Operator(after) == Some((op, " " + tail))
    requires SkipSpace(" " + tail) == tail && ReadValue(tail) == Some((value, rest))
    ensures SimpleCondition(s, aliases) == Some((Simple(name, op, Some(value)), rest))
  {
  }

  // ---- Clauses joined by AND ----

  /** The condition one pair stands for. */
  function EqCondition(logic: Option<Logic>, pair: KeyValue, name: ColumnName): Condition {
    Condition(logic, false, name.column, name.join, Eq, Some(pair.value))
  }

  /** The conditions `pairs` stand for, all but the first joined by AND. */
  function EqConditions(pairs: seq<KeyValue>, names: seq<ColumnName>, logic: Option<Logic>): seq<Condition>
    requires |names| == |pairs|
  {
    if pairs == [] then []
    else [EqCondition(logic, pairs[0], names[0])] + EqConditions(pairs[1..], names[1..], Some(And))
  }

  /** Each pair's condition stands in its place. */
  lemma {:induction false} EqConditionsAre(
    pairs: seq<KeyValue>, names: seq<ColumnName>, logic: Option<Logic>, i: nat)
    requires |names| == |pairs| && i < |pairs|
    ensures var cs := EqConditions(pairs, names, logic);
            |cs| == |pairs| && cs[i] == EqCondition(if i == 0 then logic else Some(And), pairs[i], names[i])
  {
    if |pairs| > 1 {
      EqConditionsAre(pairs[1..], names[1..], Some(And), if i > 0 then i - 1 else 0);
    }
  }

  lemma ClausesMore(pairs: seq<KeyValue>)
    requires |pairs| > 1
    ensures Clauses(pairs) == EqClauses(pairs)[0] + (" AND " + Clauses(pairs[1..]))
  {
    assert EqClauses(pairs)[1..] == EqClauses(pairs[1..]);
  }

  ghost predicate AllKeys(pairs: seq<KeyValue>, names: seq<ColumnName>, aliases: Option<seq<string>>) {
    |names| == |pairs| && forall k :: 0 <= k < |pairs| ==> IsKey(pairs[k].column, names[k], aliases)
  }

  lemma OneClause(p: KeyValue, name: ColumnName, logic: Option<Logic>, before: seq<Condition>, aliases: Option<seq<string>>)
    requires IsKey(p.column, name, aliases) && |before| < MAX_CONDITIONS
    ensures Conditions(Clause(p.column, Eq, Some(p.value)), logic, before, aliases)
         == Some(before + [EqCondition(logic, p, name)])
  {
    var clause := Clause(p.column, Eq, Some(p.value));
    LastRead(clause, p, name, logic, aliases);
    ConditionsLast(clause, logic, before, aliases, EqCondition(logic, p, name));
  }

  lemma NextClause(
    p: KeyValue, name: ColumnName, logic: Option<Logic>, before: seq<Condition>, next: string,
    aliases: Option<seq<string>>)
    requires IsKey(p.column, name, aliases) && next != "" && !IsSpace(next[0]) && |before| < MAX_CONDITIONS
    ensures Conditions(Clause(p.column, Eq, Some(p.value)) + (" AND " + next), logic, before, aliases)
         == Conditions(next, Some(And), before + [EqCondition(logic, p, name)], aliases)
  {
    var clause := Clause(p.column, Eq, Some(p.value));
    NextRead(clause, p, name, logic, aliases, next);
    ConditionsStep(clause + (" AND " + next), logic, before, aliases, EqCondition(logic, p, name), next);
  }

  lemma ClausesStart(pairs: seq<KeyValue>, names: seq<ColumnName>, aliases: Option<seq<string>>)
    requires pairs != [] && AllKeys(pairs, names, aliases)
    ensures Clauses(pairs) != "" && !IsSpace(Clauses(pairs)[0])
  {
    assert IsKey(pairs[0].column, names[0], aliases);
    NextStarts(EqClauses(pairs), pairs[0]);
  }

  lemma {:induction false} ClausesRead(
    pairs: seq<KeyValue>, names: seq<ColumnName>, logic: Option<Logic>, before: seq<Condition>,
    aliases: Option<seq<string>>)
    requires pairs != [] && AllKeys(pairs, names, aliases) && |before| + |pairs| <= MAX_CONDITIONS
    ensures Conditions(Clauses(pairs), logic, before, aliases) == Some(before + EqConditions(pairs, names, logic))
    decreases |pairs|
  {
    assert IsKey(pairs[0].column, names[0], aliases);
    var c, clause := EqCondition(logic, pairs[0], names[0]), EqClauses(pairs)[0];
    if |pairs| == 1 {
      OneClause(pairs[0], names[0], logic, before, aliases);
      assert Clauses(pairs) == clause && EqConditions(pairs, names, logic) == [c];
    } else {
      ClausesRead(pairs[1..], names[1..], Some(And), before + [c], aliases);
      ClausesStart(pairs[1..], names[1..], aliases);
      ClausesMore(pairs);
      NextClause(pairs[0], names[0], logic, before, Clauses(pairs[1..]), aliases);
      ConcatAssoc(before, [c], EqConditions(pairs[1..], names[1..], Some(And)));
    }
  }

  lemma LastRead(clause: string, p: KeyValue, name: ColumnName, logic: Option<Logic>, aliases: Option<seq<string>>)
    requires IsKey(p.column, name, aliases) && clause == Clause(p.column, Eq, Some(p.value))
    ensures ReadCondition(clause, logic, aliases)
         == Some((Condition(logic, false, name.column, name.join, Eq, Some(p.value)), ""))
  {
    ClauseRead(p.column, name, Eq, Some(p.value), "", logic, aliases);
    assert clause + "" == clause;
  }

  lemma NextRead(
    clause: string, p: KeyValue, name: ColumnName, logic: Option<Logic>, aliases: Option<seq<string>>, next: string)
    requires IsKey(p.column, name, aliases) && clause == Clause(p.column, Eq, Some(p.value))
    requires next != "" && !IsSpace(next[0])
    ensures ReadCondition(clause + (" AND " + next), logic, aliases)
         == Some((Condition(logic, false, name.column, name.join, Eq, Some(p.value)), " AND " + next))
    ensures NeedSpace(" AND " + next) == Some("AND " + next) && Joiner("AND " + next) == Some((And, next))
  {
    ClauseRead(p.column, name, Eq, Some(p.value), " AND " + next, logic, aliases);
    JoinerRead(next);
  }

  lemma NextStarts(parts: seq<string>, p: KeyValue)
    requires parts != [] && parts[0] == Clause(p.column, Eq, Some(p.value))
    requires p.column != "" && !IsSpace(p.column[0])
    ensures JoinWith(parts, " AND ") != "" && !IsSpace(JoinWith(parts, " AND ")[0])
  {
    assert parts[0][0] == p.column[0];
  }

  lemma JoinerRead(next: string)
    requires next != "" && !IsSpace(next[0])
    ensures NeedSpace(" AND " + next) == Some("AND " + next)
    ensures Joiner("AND " + next) == Some((And, next))
  {
    AndSplit(next);
    SkipOne("AND" + (" " + next));
    AndRead(next);
  }

  lemma AndSplit(next: string)
    ensures "AND " + next == "AND" + (" " + next)
    ensures " AND " + next == " " + ("AND" + (" " + next))
  {
  }

  lemma AndRead(next: string)
    requires next != "" && !IsSpace(next[0])
    ensures Joiner("AND" + (" " + next)) == Some((And, next))
  {
    SkipOne(next);
    KeywordRead("AND", " " + next);
    JoinerStep("AND" + (" " + next), next);
  }

  lemma JoinerStep(s: string, next: string)
    requires KeywordAt("AND", s) && NeedSpace(s[3..]) == Some(next)
    ensures Joiner(s) == Some((And, next))
  {
  }

  lemma ConditionsLast(
    s: string, logic: Option<Logic>, before: seq<Condition>, aliases: Option<seq<string>>, c: Condition)
    requires ReadCondition(s, logic, aliases) == Some((c, "")) && |before| < MAX_CONDITIONS
    ensures Conditions(s, logic, before, aliases) == Some(before + [c])
  {
  }

  lemma ConditionsStep(
    s: string, logic: Option<Logic>, before: seq<Condition>, aliases: Option<seq<string>>, c: Condition, next: string)
    requires |before| < MAX_CONDITIONS
    requires ReadCondition(s, logic, aliases) == Some((c, " AND " + next))
    requires NeedSpace(" AND " + next) == Some("AND " + next) && Joiner("AND " + next) == Some((And, next))
    ensures Conditions(s, logic, before, aliases) == Conditions(next, Some(And), before + [c], aliases)
  {
  }

  /**
   * Up to ten `column = value` clauses joined by AND, within the length limit,
   * are read as exactly those columns and values, whatever the values contain.
   */
  lemma ClausesParse(pairs: seq<KeyValue>, names: seq<ColumnName>, aliases: Option<seq<string>>)
    requires 1 <= |pairs| <= MAX_CONDITIONS && AllKeys(pairs, names, aliases)
    requires Utf8Length(Clauses(pairs)) <= MAX_TEXT_BYTES
    ensures Parse(Clauses(pairs), aliases) == Some(EqConditions(pairs, names, None))
  {
    TooLongCountsBytes(Clauses(pairs));
    ClausesRead(pairs, names, None, [], aliases);
    assert [] + EqConditions(pairs, names, None) == EqConditions(pairs, names, None);
  }

  /**
   * A clause from EqClause parses to one condition on the cell's value, or to none
   * where a null test is over the limit, which EqClause does not check.
   */
  lemma EqClauseParses(key: string, name: ColumnName, cell: Option<string>, aliases: Option<seq<string>>)
    requires IsKey(key, name, aliases) && EqClause(key, cell).Some?
    ensures Parse(EqClause(key, cell).value, aliases)
         == if cell.Some? || Utf8Length(key) + 8 <= MAX_TEXT_BYTES then
              Some([Condition(None, false, name.column, name.join, if cell.Some? then Eq else IsNull, cell)])
            else None
  {
    var op := if cell.Some? then Eq else IsNull;
    if cell.None? {
      NullClauseFits(key);
    }
    if !TooLong(Clause(key, op, cell)) {
      SingleParses(key, name, op, cell, aliases);
    }
  }

  /** A key EqClause takes without measuring: with " IS NULL" its 1017 letters are over the limit. */
  lemma LongNullClauseRefused() returns (key: string)
    ensures |key| == 1017 && (forall i :: 0 <= i < |key| ==> key[i] == 'a')
    ensures EqClause(key, None).Some? && Parse(EqClause(key, None).value, None) == None
  {
    key := seq(1017, i => 'a');
    AsciiLength(key);
    assert Upper(key) != "NOT";
    BareColumnIsKey(key, None);
    EqClauseParses(key, ColumnName(key, None), None, None);
  }

  lemma NullClauseFits(key: string)
    ensures TooLong(Clause(key, IsNull, None)) <==> Utf8Length(key) + 8 > MAX_TEXT_BYTES
  {
    var tail := " " + IsNull.Text();
    Utf8Appends(key, tail);
    TooLongCountsBytes(key + tail);
    AsciiLength(tail);
  }

  lemma {:induction false} AsciiLength(s: string)
    requires forall i :: 0 <= i < |s| ==> s[i] < '\U{80}'
    ensures Utf8Length(s) == |s|
  {
    if s != "" {
      AsciiLength(s[1..]);
    }
  }

  lemma SingleParses(key: string, name: ColumnName, op: Op, value: Option<string>, aliases: Option<seq<string>>)
    requires IsKey(key, name, aliases) && op.TakesValue() == value.Some? && !TooLong(Clause(key, op, value))
    ensures Parse(Clause(key, op, value), aliases)
         == Some([Condition(None, false, name.column, name.join, op, value)])
  {
    var clause := Clause(key, op, value);
    ClauseRead(key, name, op, value, "", None, aliases);
    assert clause + "" == clause;
    assert [] + [Condition(None, false, name.column, name.join, op, value)]
        == [Condition(None, false, name.column, name.join, op, value)];
  }

  lemma {:induction false} Utf8Appends(a: string, b: string)
    ensures Utf8Length(a + b) == Utf8Length(a) + Utf8Length(b)
  {
    if a == "" {
      assert a + b == b;
    } else {
      Utf8Appends(a[1..], b);
      assert (a + b)[1..] == a[1..] + b;
    }
  }
}

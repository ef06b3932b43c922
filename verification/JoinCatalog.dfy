/**
 * What a catalog and a pair check change: they refuse definitions that do not
 * meet them, and never change what an accepted text means.
 */
module JoinCatalog {
  import opened Outcomes
  import opened Text
  import opened JoinTypes
  import opened JoinGrammar
  import opened JoinSoundness

  /** The answer with options is the answer without, where `meets` it; a refusal otherwise. */
  ghost predicate Agrees<T>(checked: Reply<T>, plain: Reply<T>, meets: bool) {
    (checked.Success? <==> plain.Success? && meets) && (checked.Success? ==> checked == plain)
  }

  lemma TableRefAgrees(toks: seq<Token>, tables: seq<JoinTable>, opts: Options)
    requires TablesKnown(tables, opts)
    ensures var plain := TableRef(toks, tables, NO_OPTIONS);
            Agrees(TableRef(toks, tables, opts), plain, plain.Success? && TablesKnown(plain.value.0, opts))
  {
    var plain := TableRef(toks, tables, NO_OPTIONS);
    if plain.Success? {
      var tables' := plain.value.0;
      assert tables' == tables + [tables'[|tables|]];
      assert tables'[|tables|].table == NameToken(toks).value.0;
      assert TablesKnown(tables', opts) <==> opts.KnowsTable(tables'[|tables|].table);
    }
  }

  lemma MakePairAgrees(
    first: Reference, second: Reference, position: nat, tables: seq<JoinTable>, opts: Options)
    requires position < |tables| && Symmetric(opts)
    ensures var plain := MakePair(first, second, position, tables, NO_OPTIONS);
            Agrees(
              MakePair(first, second, position, tables, opts), plain,
              plain.Success? && PairMeets(plain.value, position, tables, opts))
  {
    var a, b := Position(tables, first.qualifier), Position(tables, second.qualifier);
    if a.Success? && b.Success? {
      var ea := PairEnd(tables[a.value].table, first.column);
      var eb := PairEnd(tables[b.value].table, second.column);
      assert opts.Clash(ea, eb) == opts.Clash(eb, ea);
    }
  }

  lemma PairAgrees(toks: seq<Token>, tables: seq<JoinTable>, opts: Options)
    requires tables != [] && Symmetric(opts)
    ensures var plain := Pair(toks, tables, NO_OPTIONS);
            Agrees(
              Pair(toks, tables, opts), plain,
              plain.Success? && PairMeets(plain.value.0, |tables| - 1, tables, opts))
  {
    var r := ColRef(toks);
    if r.Success? && Peek(r.value.1).Success? && IsSymbol(Peek(r.value.1).value, '=') {
      var q := ColRef(Rest(r.value.1));
      if q.Success? {
        MakePairAgrees(r.value.0, q.value.0, |tables| - 1, tables, opts);
      }
    }
  }

  ghost predicate PairsMeet(on: seq<JoinPair>, position: nat, tables: seq<JoinTable>, opts: Options) {
    forall k :: 0 <= k < |on| ==> PairMeets(on[k], position, tables, opts)
  }

  /** Reading on never drops a pair already read. */
  lemma {:induction false} PairsKeep(toks: seq<Token>, tables: seq<JoinTable>, on: seq<JoinPair>, opts: Options)
    requires tables != [] && |on| < MAX_PAIRS && Pairs(toks, tables, on, opts).Success?
    ensures on <= Pairs(toks, tables, on, opts).value.0
    decreases MAX_PAIRS - |on|
  {
    var (p, rest) := Pair(toks, tables, opts).value;
    if IsWord(Peek(rest).value, "AND") {
      PairsKeep(Rest(rest), tables, on + [p], opts);
    }
  }

  lemma {:induction false} PairsAgree(toks: seq<Token>, tables: seq<JoinTable>, on: seq<JoinPair>, opts: Options)
    requires tables != [] && |on| < MAX_PAIRS && Symmetric(opts) && PairsMeet(on, |tables| - 1, tables, opts)
    ensures var plain := Pairs(toks, tables, on, NO_OPTIONS);
            Agrees(
              Pairs(toks, tables, on, opts), plain,
              plain.Success? && PairsMeet(plain.value.0, |tables| - 1, tables, opts))
    decreases MAX_PAIRS - |on|
  {
    PairAgrees(toks, tables, opts);
    var plain := Pair(toks, tables, NO_OPTIONS);
    if plain.Success? {
      var (p, rest) := plain.value;
      if Pairs(toks, tables, on, NO_OPTIONS).Success? {
        PairsKeep(toks, tables, on, NO_OPTIONS);
        PairKept(toks, tables, on, p, rest);
      }
      if PairMeets(p, |tables| - 1, tables, opts) {
        assert PairsMeet(on + [p], |tables| - 1, tables, opts);
        if Peek(rest).Success? && IsWord(Peek(rest).value, "AND") && |on| + 1 < MAX_PAIRS {
          PairsAgree(Rest(rest), tables, on + [p], opts);
        }
      }
    }
  }

  lemma PairKept(toks: seq<Token>, tables: seq<JoinTable>, on: seq<JoinPair>, p: JoinPair, rest: seq<Token>)
    requires tables != [] && |on| < MAX_PAIRS && Pairs(toks, tables, on, NO_OPTIONS).Success?
    requires Pair(toks, tables, NO_OPTIONS) == Success((p, rest))
    ensures var on' := Pairs(toks, tables, on, NO_OPTIONS).value.0;
            |on| < |on'| && on'[|on|] == p
  {
    if IsWord(Peek(rest).value, "AND") {
      PairsKeep(Rest(rest), tables, on + [p], NO_OPTIONS);
      assert (on + [p])[|on|] == p;
    }
  }

  ghost predicate JoinsMeet(joins: seq<JoinClause>, tables: seq<JoinTable>, opts: Options) {
    forall i :: 0 <= i < |joins| ==> PairsMeet(joins[i].on, i + 1, tables, opts)
  }

  lemma ClauseAgrees(toks: seq<Token>, tables: seq<JoinTable>, opts: Options)
    requires tables != [] && Symmetric(opts) && TablesKnown(tables, opts)
    ensures var plain := Clause(toks, tables, NO_OPTIONS);
            Agrees(
              Clause(toks, tables, opts), plain,
              && plain.Success? && TablesKnown(plain.value.0, opts)
              && PairsMeet(plain.value.1.on, |tables|, plain.value.0, opts))
  {
    var kind := JoinKind(toks);
    if kind.Success? && |tables| < MAX_TABLES {
      TableRefAgrees(kind.value.1, tables, opts);
      var table := TableRef(kind.value.1, tables, NO_OPTIONS);
      if table.Success? && TablesKnown(table.value.0, opts) {
        var on := ExpectWord(table.value.1, "ON");
        if on.Success? {
          PairsAgree(on.value, table.value.0, [], opts);
        }
      }
    }
  }

  /** Reading on never drops a table or a clause already read. */
  lemma {:induction false} ClausesKeep(
    toks: seq<Token>, tables: seq<JoinTable>, joins: seq<JoinClause>, opts: Options)
    requires |tables| <= MAX_TABLES && Clauses(toks, tables, joins, opts).Success?
    ensures var (tables', joins', _) := Clauses(toks, tables, joins, opts).value;
            tables <= tables' && joins <= joins'
    decreases MAX_TABLES - |tables|
  {
    var t := Peek(toks).value;
    if t != End && !IsSymbol(t, ';') {
      ClauseKeeps(toks, tables, opts);
      var (tables', j, rest) := Clause(toks, tables, opts).value;
      ClausesKeep(rest, tables', joins + [j], opts);
    }
  }

  lemma ClauseKeeps(toks: seq<Token>, tables: seq<JoinTable>, opts: Options)
    requires Clause(toks, tables, opts).Success?
    ensures tables <= Clause(toks, tables, opts).value.0
  {
    var (_, afterKind) := JoinKind(toks).value;
    assert TableRef(afterKind, tables, opts).value.0[..|tables|] == tables;
  }

  /** Tables read later do not matter to the pairs of earlier clauses. */
  lemma JoinsMeetPrefix(joins: seq<JoinClause>, tables: seq<JoinTable>, more: seq<JoinTable>, opts: Options)
    requires tables <= more && |joins| < |tables|
    ensures JoinsMeet(joins, tables, opts) <==> JoinsMeet(joins, more, opts)
  {
    forall i, k | 0 <= i < |joins| && 0 <= k < |joins[i].on|
      ensures PairMeets(joins[i].on[k], i + 1, tables, opts) == PairMeets(joins[i].on[k], i + 1, more, opts)
    {
      PairMeetsPrefix(joins[i].on[k], i + 1, tables, more, opts);
    }
    forall i | 0 <= i < |joins|
      ensures PairsMeet(joins[i].on, i + 1, tables, opts) == PairsMeet(joins[i].on, i + 1, more, opts)
    {
    }
  }

  lemma PairMeetsPrefix(p: JoinPair, position: nat, tables: seq<JoinTable>, more: seq<JoinTable>, opts: Options)
    requires tables <= more && position < |tables|
    ensures PairMeets(p, position, tables, opts) == PairMeets(p, position, more, opts)
  {
    assert forall i :: 0 <= i < |tables| ==> tables[i] == more[i];
  }

  lemma TablesKnownPrefix(tables: seq<JoinTable>, more: seq<JoinTable>, opts: Options)
    requires tables <= more && TablesKnown(more, opts)
    ensures TablesKnown(tables, opts)
  {
    assert forall i :: 0 <= i < |tables| ==> tables[i] == more[i];
  }

  lemma {:induction false} ClausesAgree(
    toks: seq<Token>, tables: seq<JoinTable>, joins: seq<JoinClause>, opts: Options)
    requires Symmetric(opts) && TablesKnown(tables, opts) && JoinsMeet(joins, tables, opts)
    requires 1 <= |tables| <= MAX_TABLES && |joins| == |tables| - 1
    ensures var plain := Clauses(toks, tables, joins, NO_OPTIONS);
            Agrees(
              Clauses(toks, tables, joins, opts), plain,
              && plain.Success? && TablesKnown(plain.value.0, opts)
              && JoinsMeet(plain.value.1, plain.value.0, opts))
    decreases MAX_TABLES - |tables|
  {
    var t := Peek(toks);
    if t.Success? && t.value != End && !IsSymbol(t.value, ';') {
      ClauseAgrees(toks, tables, opts);
      var clause := Clause(toks, tables, NO_OPTIONS);
      if clause.Success? {
        var (tables', j, rest) := clause.value;
        ClauseKeeps(toks, tables, NO_OPTIONS);
        ClauseMeets(tables, tables', joins, j, opts);
        if TablesKnown(tables', opts) && PairsMeet(j.on, |tables|, tables', opts) {
          ClausesAgree(rest, tables', joins + [j], opts);
        } else if Clauses(toks, tables, joins, NO_OPTIONS).Success? {
          ClausesRefuse(rest, tables', joins + [j], opts);
        }
      }
    }
  }

  lemma ClauseMeets(
    tables: seq<JoinTable>, tables': seq<JoinTable>, joins: seq<JoinClause>, j: JoinClause, opts: Options)
    requires tables <= tables' && |tables'| == |tables| + 1 && |joins| == |tables| - 1
    requires JoinsMeet(joins, tables, opts)
    ensures JoinsMeet(joins + [j], tables', opts) <==> PairsMeet(j.on, |tables|, tables', opts)
  {
    JoinsMeetPrefix(joins, tables, tables', opts);
    var all := joins + [j];
    assert all[|joins|] == j;
    forall i | 0 <= i < |joins|
      ensures PairsMeet(all[i].on, i + 1, tables', opts)
    {
      assert all[i] == joins[i];
    }
  }

  /** Once a table or a pair does not meet the options, the finished definition does not either. */
  lemma ClausesRefuse(toks: seq<Token>, tables: seq<JoinTable>, joins: seq<JoinClause>, opts: Options)
    requires |tables| <= MAX_TABLES && |joins| == |tables| - 1
    requires !TablesKnown(tables, opts) || !JoinsMeet(joins, tables, opts)
    requires Clauses(toks, tables, joins, NO_OPTIONS).Success?
    ensures var (tables', joins', _) := Clauses(toks, tables, joins, NO_OPTIONS).value;
            !TablesKnown(tables', opts) || !JoinsMeet(joins', tables', opts)
  {
    ClausesKeep(toks, tables, joins, NO_OPTIONS);
    var (tables', joins', _) := Clauses(toks, tables, joins, NO_OPTIONS).value;
    if TablesKnown(tables', opts) {
      TablesKnownPrefix(tables, tables', opts);
    }
    if JoinsMeet(joins', tables', opts) {
      FewerJoinsMeet(joins, joins', tables', opts);
    }
    JoinsMeetPrefix(joins, tables, tables', opts);
  }

  lemma FewerJoinsMeet(joins: seq<JoinClause>, more: seq<JoinClause>, tables: seq<JoinTable>, opts: Options)
    requires joins <= more && JoinsMeet(more, tables, opts)
    ensures JoinsMeet(joins, tables, opts)
  {
    assert forall i :: 0 <= i < |joins| ==> joins[i] == more[i];
  }

  // ---- Select list and statement ----

  ghost predicate ColumnsMeet(columns: seq<JoinColumn>, tables: seq<JoinTable>, opts: Options) {
    forall i :: 0 <= i < |columns| ==> ColumnMeets(columns[i], tables, opts)
  }

  lemma {:induction false} ColumnsKeep(
    items: seq<Item>, columns: seq<JoinColumn>, tables: seq<JoinTable>, opts: Options)
    requires Columns(items, columns, tables, opts).Success?
    ensures columns <= Columns(items, columns, tables, opts).value
    decreases |items|
  {
    if items != [] {
      var c := ColumnOf(items[0], Position(tables, items[0].qualifier).value);
      ColumnsKeep(items[1..], columns + [c], tables, opts);
    }
  }

  lemma {:induction false} ColumnsAgree(
    items: seq<Item>, columns: seq<JoinColumn>, tables: seq<JoinTable>, opts: Options)
    requires ColumnsMeet(columns, tables, opts)
    ensures var plain := Columns(items, columns, tables, NO_OPTIONS);
            Agrees(
              Columns(items, columns, tables, opts), plain,
              plain.Success? && ColumnsMeet(plain.value, tables, opts))
    decreases |items|
  {
    if items != [] && Position(tables, items[0].qualifier).Success? {
      var c := ColumnOf(items[0], Position(tables, items[0].qualifier).value);
      if ColumnMeets(c, tables, opts) {
        assert ColumnsMeet(columns + [c], tables, opts);
        ColumnsAgree(items[1..], columns + [c], tables, opts);
      } else if Columns(items, columns, tables, NO_OPTIONS).Success? {
        ColumnsKeep(items[1..], columns + [c], tables, NO_OPTIONS);
        assert (columns + [c])[|columns|] == c;
      }
    }
  }

  lemma FinishAgrees(
    items: Option<seq<Item>>, tables: seq<JoinTable>, joins: seq<JoinClause>, toks: seq<Token>, opts: Options)
    requires TablesKnown(tables, opts) && JoinsMeet(joins, tables, opts)
    ensures var plain := Finish(items, tables, joins, toks, NO_OPTIONS);
            Agrees(Finish(items, tables, joins, toks, opts), plain, plain.Success? && Meets(plain.value, opts))
  {
    assert forall i, k :: 0 <= i < |joins| && 0 <= k < |joins[i].on| ==>
        PairMeets(joins[i].on[k], i + 1, tables, opts) by {
      forall i, k | 0 <= i < |joins| && 0 <= k < |joins[i].on|
        ensures PairMeets(joins[i].on[k], i + 1, tables, opts)
      {
        assert PairsMeet(joins[i].on, i + 1, tables, opts);
      }
    }
    if items.Some? {
      ColumnsAgree(items.value, [], tables, opts);
    }
  }

  lemma FinishKeeps(
    items: Option<seq<Item>>, tables: seq<JoinTable>, joins: seq<JoinClause>, toks: seq<Token>, opts: Options)
    requires Finish(items, tables, joins, toks, NO_OPTIONS).Success?
    requires Meets(Finish(items, tables, joins, toks, NO_OPTIONS).value, opts)
    ensures TablesKnown(tables, opts) && JoinsMeet(joins, tables, opts)
  {
    var def := Finish(items, tables, joins, toks, NO_OPTIONS).value;
    assert def.tables == tables && def.joins == joins;
  }

  /**
   * Reading with a catalog and a symmetric pair check accepts exactly the texts
   * that are accepted without them and whose definition meets them, and means
   * the same.
   */
  lemma CatalogOnlyRefuses(text: string, opts: Options)
    requires Symmetric(opts)
    ensures Parse(text, opts).Success? <==>
              Parse(text, NO_OPTIONS).Success? && Meets(Parse(text, NO_OPTIONS).value, opts)
    ensures Parse(text, opts).Success? ==> Parse(text, opts) == Parse(text, NO_OPTIONS)
  {
    var toks := Tokens(text);
    if Peek(toks).Success? && Peek(toks).value != End && Select(toks).Success? {
      var (items, afterSelect) := Select(toks).value;
      if ExpectWord(afterSelect, "FROM").Success? {
        FromAgrees(items, ExpectWord(afterSelect, "FROM").value, opts);
      }
    }
  }

  lemma FromAgrees(items: Option<seq<Item>>, toks: seq<Token>, opts: Options)
    requires Symmetric(opts)
    ensures var plain := FromTable(items, toks, NO_OPTIONS);
            Agrees(FromTable(items, toks, opts), plain, plain.Success? && Meets(plain.value, opts))
  {
    TableRefAgrees(toks, [], opts);
    var base := TableRef(toks, [], NO_OPTIONS);
    if base.Success? {
      if TablesKnown(base.value.0, opts) {
        RestAgrees(items, base.value.1, base.value.0, opts);
      } else if Clauses(base.value.1, base.value.0, [], NO_OPTIONS).Success? {
        ClausesRefuse(base.value.1, base.value.0, [], opts);
        var (tables, joins, afterJoins) := Clauses(base.value.1, base.value.0, [], NO_OPTIONS).value;
        FinishRefuses(items, tables, joins, afterJoins, opts);
      }
    }
  }

  lemma FinishRefuses(
    items: Option<seq<Item>>, tables: seq<JoinTable>, joins: seq<JoinClause>, toks: seq<Token>, opts: Options)
    requires !TablesKnown(tables, opts) || !JoinsMeet(joins, tables, opts)
    ensures var r := Finish(items, tables, joins, toks, NO_OPTIONS); !(r.Success? && Meets(r.value, opts))
  {
    var r := Finish(items, tables, joins, toks, NO_OPTIONS);
    if r.Success? && Meets(r.value, opts) {
      FinishKeeps(items, tables, joins, toks, opts);
    }
  }

  lemma RestAgrees(items: Option<seq<Item>>, toks: seq<Token>, base: seq<JoinTable>, opts: Options)
    requires Symmetric(opts) && |base| == 1 && TablesKnown(base, opts)
    ensures var plain := Clauses(toks, base, [], NO_OPTIONS);
            var checked := Clauses(toks, base, [], opts);
            var plainDef := if plain.Success? then Finish(items, plain.value.0, plain.value.1, plain.value.2, NO_OPTIONS)
                            else Failure(plain.error);
            var checkedDef := if checked.Success? then Finish(items, checked.value.0, checked.value.1, checked.value.2, opts)
                              else Failure(checked.error);
            Agrees(checkedDef, plainDef, plainDef.Success? && Meets(plainDef.value, opts))
  {
    ClausesAgree(toks, base, [], opts);
    var plain := Clauses(toks, base, [], NO_OPTIONS);
    if plain.Success? {
      var (tables, joins, afterJoins) := plain.value;
      if TablesKnown(tables, opts) && JoinsMeet(joins, tables, opts) {
        FinishAgrees(items, tables, joins, afterJoins, opts);
      } else {
        FinishRefuses(items, tables, joins, afterJoins, opts);
      }
    }
  }
}

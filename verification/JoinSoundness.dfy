/** Whatever the join parser accepts is a well-formed definition, and canonical text is a normal form. */
module JoinSoundness {
  import opened Outcomes
  import opened Text
  import opened JoinTypes
  import opened JoinGrammar
  import opened JoinPrinter
  import opened JoinRoundTrip

  // ---- Accepted definitions are well formed ----

  ghost predicate Named(toks: seq<Token>) {
    forall i :: 0 <= i < |toks| ==> (toks[i].Word? || toks[i].Quoted? ==> toks[i].text != "")
  }

  lemma {:induction false} TokensNamed(s: string)
    ensures Named(Tokens(s))
    decreases |s|
  {
    var r := s[Span(Space, s)..];
    if r != "" {
      var (tok, n) := LexToken(r);
      if !tok.Bad? {
        TokensNamed(r[n..]);
      }
    }
  }

  lemma AliasNamed(toks: seq<Token>)
    requires Named(toks) && Alias(toks).Success?
    ensures Alias(toks).value.0.Some? ==> Alias(toks).value.0.value != ""
    ensures Named(Alias(toks).value.1)
  {
  }

  lemma TableRefSound(toks: seq<Token>, tables: seq<JoinTable>, opts: Options)
    requires Named(toks) && TablesWF(tables) && TableRef(toks, tables, opts).Success?
    ensures var (tables', rest) := TableRef(toks, tables, opts).value;
            TablesWF(tables') && |tables'| == |tables| + 1 && Named(rest)
  {
    var (name, afterName) := NameToken(toks).value;
    AliasNamed(afterName);
    var (tables', rest) := TableRef(toks, tables, opts).value;
    assert tables'[..|tables|] == tables;
    forall i, j | 0 <= i < j < |tables'|
      ensures tables'[i].Name() != tables'[j].Name()
    {
      if j < |tables| {
        assert tables[i].Name() != tables[j].Name();
      } else {
        assert tables'[i] == tables[i];
      }
    }
  }

  lemma ColRefNamed(toks: seq<Token>)
    requires Named(toks) && ColRef(toks).Success?
    ensures ColRef(toks).value.0.column != "" && Named(ColRef(toks).value.1)
  {
  }

  lemma PairSound(toks: seq<Token>, tables: seq<JoinTable>, opts: Options)
    requires Named(toks) && tables != [] && Pair(toks, tables, opts).Success?
    ensures var (p, rest) := Pair(toks, tables, opts).value;
            p.left.join < |tables| - 1 && p.left.column != "" && p.right != "" && Named(rest)
  {
    ColRefNamed(toks);
    var (first, afterFirst) := ColRef(toks).value;
    ColRefNamed(Rest(afterFirst));
    var (second, rest) := ColRef(Rest(afterFirst)).value;
    MakePairOriented(first, second, |tables| - 1, tables, opts);
  }

  /** A pair is always turned to name an earlier table on its left. */
  lemma MakePairOriented(
    first: Reference, second: Reference, position: nat, tables: seq<JoinTable>, opts: Options)
    requires position < |tables| && MakePair(first, second, position, tables, opts).Success?
    ensures var p := MakePair(first, second, position, tables, opts).value;
            && p.left.join < position
            && ((p.left.column == first.column && p.right == second.column)
                || (p.left.column == second.column && p.right == first.column))
  {
  }

  lemma {:induction false} PairsSound(toks: seq<Token>, tables: seq<JoinTable>, on: seq<JoinPair>, opts: Options)
    requires Named(toks) && tables != [] && |on| < MAX_PAIRS && PairsWF(on, |tables| - 1)
    requires Pairs(toks, tables, on, opts).Success?
    ensures var (on', rest) := Pairs(toks, tables, on, opts).value;
            1 <= |on'| <= MAX_PAIRS && PairsWF(on', |tables| - 1) && Named(rest)
    decreases MAX_PAIRS - |on|
  {
    PairSound(toks, tables, opts);
    var (p, rest) := Pair(toks, tables, opts).value;
    assert PairsWF(on + [p], |tables| - 1);
    if IsWord(Peek(rest).value, "AND") {
      PairsSound(Rest(rest), tables, on + [p], opts);
    }
  }

  lemma ClauseSound(toks: seq<Token>, tables: seq<JoinTable>, opts: Options)
    requires Named(toks) && TablesWF(tables) && tables != [] && Clause(toks, tables, opts).Success?
    ensures var (tables', j, rest) := Clause(toks, tables, opts).value;
            && TablesWF(tables') && Named(rest)
            && 1 <= |j.on| <= MAX_PAIRS && PairsWF(j.on, |tables|)
  {
    var (kind, afterKind) := JoinKind(toks).value;
    KindNamed(toks);
    TableRefSound(afterKind, tables, opts);
    var (tables', afterTable) := TableRef(afterKind, tables, opts).value;
    var afterOn := ExpectWord(afterTable, "ON").value;
    PairsSound(afterOn, tables', [], opts);
  }

  lemma KindNamed(toks: seq<Token>)
    requires Named(toks) && JoinKind(toks).Success?
    ensures Named(JoinKind(toks).value.1)
  {
    RestNamed(toks);
    RestNamed(Rest(toks));
    RestNamed(Rest(Rest(toks)));
  }

  lemma RestNamed(toks: seq<Token>)
    requires Named(toks)
    ensures Named(Rest(toks))
  {
  }

  lemma {:induction false} ClausesSound(
    toks: seq<Token>, tables: seq<JoinTable>, joins: seq<JoinClause>, opts: Options)
    requires Named(toks) && TablesWF(tables) && JoinsWF(joins)
    requires 1 <= |tables| <= MAX_TABLES && |joins| == |tables| - 1
    requires Clauses(toks, tables, joins, opts).Success?
    ensures var (tables', joins', rest) := Clauses(toks, tables, joins, opts).value;
            && TablesWF(tables') && JoinsWF(joins')
            && 1 <= |tables'| <= MAX_TABLES && |joins'| == |tables'| - 1
    decreases MAX_TABLES - |tables|
  {
    var t := Peek(toks).value;
    if t != End && !IsSymbol(t, ';') {
      ClauseSound(toks, tables, opts);
      var (tables', j, rest) := Clause(toks, tables, opts).value;
      assert JoinsWF(joins + [j]);
      ClausesSound(rest, tables', joins + [j], opts);
    }
  }

  ghost predicate ItemsNamed(items: seq<Item>) {
    forall i :: 0 <= i < |items| ==> (items[i].column.Some? ==> items[i].column.value != "")
  }

  lemma ItemNamed(toks: seq<Token>)
    requires Named(toks) && SelectItem(toks).Success?
    ensures var (item, rest) := SelectItem(toks).value;
            (item.column.Some? ==> item.column.value != "") && Named(rest)
  {
    RestNamed(toks);
    RestNamed(Rest(toks));
    RestNamed(Rest(Rest(toks)));
  }

  lemma {:induction false} ItemsSound(toks: seq<Token>, items: seq<Item>)
    requires Named(toks) && ItemsNamed(items) && SelectItems(toks, items).Success?
    ensures var (items', rest) := SelectItems(toks, items).value;
            items' != [] && ItemsNamed(items') && Named(rest)
    decreases |toks|
  {
    var (item, rest) := SelectItem(toks).value;
    ItemNamed(toks);
    RestNamed(rest);
    assert ItemsNamed(items + [item]);
    if IsSymbol(Peek(rest).value, ',') {
      ItemsSound(Rest(rest), items + [item]);
    }
  }

  lemma SelectSound(toks: seq<Token>)
    requires Named(toks) && Select(toks).Success?
    ensures var (items, rest) := Select(toks).value;
            (items.Some? ==> items.value != [] && ItemsNamed(items.value)) && Named(rest)
  {
    var t := Peek(toks).value;
    if IsWord(t, "SELECT") && !IsSymbol(Peek(Rest(toks)).value, '*') {
      ItemsSound(Rest(toks), []);
    }
  }

  lemma {:induction false} ColumnsSound(
    items: seq<Item>, columns: seq<JoinColumn>, tables: seq<JoinTable>, opts: Options)
    requires ItemsNamed(items) && ColumnsWF(columns, |tables|)
    requires Columns(items, columns, tables, opts).Success?
    ensures var columns' := Columns(items, columns, tables, opts).value;
            ColumnsWF(columns', |tables|) && |columns'| == |columns| + |items|
    decreases |items|
  {
    if items != [] {
      var c := ColumnOf(items[0], Position(tables, items[0].qualifier).value);
      assert !Selected(columns, c);
      assert ColumnsWF(columns + [c], |tables|);
      ColumnsSound(items[1..], columns + [c], tables, opts);
    }
  }

  /** Whatever text, catalog and pair check: an accepted definition is well formed. */
  lemma ParsedIsWellFormed(text: string, opts: Options)
    requires Parse(text, opts).Success?
    ensures WellFormed(Parse(text, opts).value)
  {
    var toks := Tokens(text);
    TokensNamed(text);
    SelectSound(toks);
    var (items, afterSelect) := Select(toks).value;
    var afterFrom := ExpectWord(afterSelect, "FROM").value;
    TableRefSound(afterFrom, [], opts);
    var (base, afterBase) := TableRef(afterFrom, [], opts).value;
    ClausesSound(afterBase, base, [], opts);
    var (tables, joins, afterJoins) := Clauses(afterBase, base, [], opts).value;
    FinishSound(items, tables, joins, afterJoins, opts);
  }

  lemma FinishSound(
    items: Option<seq<Item>>, tables: seq<JoinTable>, joins: seq<JoinClause>, toks: seq<Token>, opts: Options)
    requires TablesWF(tables) && JoinsWF(joins) && 1 <= |tables| <= MAX_TABLES && |joins| == |tables| - 1
    requires items.Some? ==> items.value != [] && ItemsNamed(items.value)
    requires Finish(items, tables, joins, toks, opts).Success?
    ensures WellFormed(Finish(items, tables, joins, toks, opts).value)
  {
    if items.Some? {
      ColumnsSound(items.value, [], tables, opts);
    }
  }

  // ---- Canonical text ----

  lemma PlainMeets(def: JoinDef)
    requires WellFormed(def)
    ensures Meets(def, NO_OPTIONS)
  {
    forall i, k | 0 <= i < |def.joins| && 0 <= k < |def.joins[i].on|
      ensures PairMeets(def.joins[i].on[k], i + 1, def.tables, NO_OPTIONS)
    {
      assert PairsWF(def.joins[i].on, i + 1);
    }
  }

  /** The text of a well-formed definition, with nothing known of the catalog, is read back as it. */
  lemma RoundTrip(def: JoinDef)
    requires WellFormed(def)
    ensures Parse(Print(def), NO_OPTIONS) == Success(def)
  {
    PlainMeets(def);
    PrintThenParse(def, NO_OPTIONS);
  }

  /** Two definitions print alike only if they are the same definition. */
  lemma PrintInjective(a: JoinDef, b: JoinDef)
    requires WellFormed(a) && WellFormed(b) && Print(a) == Print(b)
    ensures a == b
  {
    RoundTrip(a);
    RoundTrip(b);
  }

  /** Printing what was parsed is canonical: it means the same, and printing again changes nothing. */
  lemma CanonicalText(text: string, opts: Options)
    requires Parse(text, opts).Success?
    ensures WellFormed(Parse(text, opts).value)
    ensures var canonical := Print(Parse(text, opts).value);
            && Parse(canonical, NO_OPTIONS) == Success(Parse(text, opts).value)
            && Print(Parse(canonical, NO_OPTIONS).value) == canonical
  {
    ParsedIsWellFormed(text, opts);
    RoundTrip(Parse(text, opts).value);
  }
}

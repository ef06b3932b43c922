/** Parsing the canonical text of a definition gives the definition back. */
module JoinRoundTrip {
  import opened Outcomes
  import opened Text
  import opened JoinTypes
  import opened JoinGrammar
  import opened Reading
  import opened JoinPrinter
  import opened JoinSpelling
  import Reads = JoinSpellingRead

  // ---- The canonical choices ----

  const AS_NEEDED := RefChoice(false, false)

  const NO_AS := TableChoice(false, None, false)

  const EARLIER_FIRST := PairChoice(false, AS_NEEDED, AS_NEEDED, "AND")

  function CanonicalPairs(n: nat): (chs: seq<PairChoice>)
    ensures |chs| == n && forall k :: 0 <= k < n ==> chs[k] == EARLIER_FIRST
  {
    seq(n, _ => EARLIER_FIRST)
  }

  function CanonicalClause(j: JoinClause): ClauseChoice {
    ClauseChoice(
      if j.kind.LeftJoin? then WithLeft("LEFT", "JOIN") else WithInner("INNER", "JOIN"), NO_AS, "ON",
      CanonicalPairs(|j.on|))
  }

  function CanonicalItems(n: nat): (chs: seq<RefChoice>)
    ensures |chs| == n && forall k :: 0 <= k < n ==> chs[k] == AS_NEEDED
  {
    seq(n, _ => AS_NEEDED)
  }

  /** Capitals, every kind of join spelled out, earlier tables first, and quotes only where they are needed. */
  function Canonical(def: JoinDef): Choices {
    Choices(
      if def.columns.None? then Star("SELECT") else Listing("SELECT", CanonicalItems(|def.columns.value|)), "FROM",
      NO_AS, seq(|def.joins|, i requires 0 <= i < |def.joins| => CanonicalClause(def.joins[i])), false)
  }

  lemma CanonicalFits(def: JoinDef)
    ensures Fits(def, Canonical(def))
  {
    assert Says("SELECT", "SELECT") && Says("FROM", "FROM");
    forall i | 0 <= i < |def.joins|
      ensures ClauseFits(def.joins[i], Canonical(def).clauses[i])
    {
      ClauseFitsIt(def.joins[i]);
    }
  }

  lemma ClauseFitsIt(j: JoinClause)
    ensures ClauseFits(j, CanonicalClause(j))
  {
    assert Says("LEFT", "LEFT") && Says("INNER", "INNER") && Says("JOIN", "JOIN");
    assert Says("ON", "ON") && Says("AND", "AND");
  }

  // ---- The printed tokens are that spelling ----

  lemma JoinedNext<T>(parts: seq<seq<T>>, k: nat, sep: seq<T>)
    requires k < |parts|
    ensures JoinedToks(parts[k..], sep)
         == parts[k] + ((if k + 1 < |parts| then sep else []) + JoinedToks(parts[k + 1..], sep))
  {
    assert parts[k..][0] == parts[k] && parts[k..][1..] == parts[k + 1..];
    if k + 1 == |parts| {
      assert parts[k] + ([] + []) == parts[k];
    }
  }

  lemma PairPrinted(p: JoinPair, position: nat, tables: seq<JoinTable>)
    requires p.left.join < |tables| && position < |tables|
    ensures PairToks(p, position, tables) == PairSpelled(p, position, tables, EARLIER_FIRST)
  {
  }

  lemma {:induction false} PairsPrinted(on: seq<JoinPair>, k: nat, position: nat, tables: seq<JoinTable>)
    requires k <= |on| && position < |tables| && PairsWF(on, position)
    ensures JoinedToks(PairListToks(on, position, tables)[k..], [Word("AND")])
         == PairsSpelled(on, k, position, tables, CanonicalPairs(|on|))
    decreases |on| - k
  {
    if k < |on| {
      JoinedNext(PairListToks(on, position, tables), k, [Word("AND")]);
      PairsPrinted(on, k + 1, position, tables);
      PairPrinted(on[k], position, tables);
    }
  }

  lemma TablePrinted(t: JoinTable)
    ensures TableToks(t) == TableSpelled(t, NO_AS)
  {
  }

  lemma ClausePrinted(j: JoinClause, position: nat, tables: seq<JoinTable>)
    requires position < |tables| && PairsWF(j.on, position)
    ensures ClauseToks(j, position, tables) == ClauseSpelled(j, position, tables, CanonicalClause(j))
  {
    var all := PairListToks(j.on, position, tables);
    PairsPrinted(j.on, 0, position, tables);
    assert all[0..] == all;
    TablePrinted(tables[position]);
    var kind := Word(if j.kind.LeftJoin? then "LEFT" else "INNER");
    KindFirst(kind, TableToks(tables[position]), JoinedToks(all, [Word("AND")]));
  }

  lemma KindFirst(kind: Token, table: seq<Token>, pairs: seq<Token>)
    ensures [kind] + [Word("JOIN")] + table + [Word("ON")] + pairs
         == [kind, Word("JOIN")] + (table + ([Word("ON")] + pairs))
  {
  }

  lemma {:induction false} ClausesPrinted(def: JoinDef, i: nat)
    requires WellFormed(def) && Fits(def, Canonical(def)) && i <= |def.joins|
    ensures JoinedToks(ClauseListToks(def.joins, def.tables)[i..], []) + [End] == ClausesSpelled(def, i, Canonical(def))
    decreases |def.joins| - i
  {
    var parts := ClauseListToks(def.joins, def.tables);
    if i == |def.joins| {
      assert parts[i..] == [];
    } else {
      ClausesPrinted(def, i + 1);
      NextPrinted(def, i);
      JoinedNext(parts, i, []);
      Reads.Around(parts[i], [], JoinedToks(parts[i + 1..], []), [End]);
    }
  }

  lemma NextPrinted(def: JoinDef, i: nat)
    requires WellFormed(def) && Fits(def, Canonical(def)) && i < |def.joins|
    ensures ClausesSpelled(def, i, Canonical(def))
         == ClauseListToks(def.joins, def.tables)[i] + ClausesSpelled(def, i + 1, Canonical(def))
  {
    Reads.ClausesNext(def, i, Canonical(def));
    ClausePrinted(def.joins[i], i + 1, def.tables);
  }

  lemma ItemPrinted(c: JoinColumn, tables: seq<JoinTable>)
    requires c.join < |tables|
    ensures ColumnToks(c, tables) == ItemSpelled(c, tables, AS_NEEDED)
  {
  }

  lemma {:induction false} ItemsPrinted(cs: seq<JoinColumn>, k: nat, tables: seq<JoinTable>)
    requires ColumnsWF(cs, |tables|) && k <= |cs|
    ensures JoinedToks(ColumnListToks(cs, tables)[k..], [Symbol(',')])
         == ItemsSpelled(cs, k, tables, CanonicalItems(|cs|))
    decreases |cs| - k
  {
    if k < |cs| {
      JoinedNext(ColumnListToks(cs, tables), k, [Symbol(',')]);
      ItemsPrinted(cs, k + 1, tables);
      ItemPrinted(cs[k], tables);
    }
  }

  lemma SelectPrinted(def: JoinDef)
    requires WellFormed(def) && Fits(def, Canonical(def))
    ensures SelectToks(def.columns, def.tables) == SelectSpelled(def.columns, def.tables, Canonical(def).select)
  {
    if def.columns.Some? {
      var all := ColumnListToks(def.columns.value, def.tables);
      ItemsPrinted(def.columns.value, 0, def.tables);
      assert all[0..] == all;
    }
  }

  /** The canonical text is one spelling of the definition. */
  lemma CanonicalTokens(def: JoinDef)
    requires WellFormed(def) && Fits(def, Canonical(def))
    ensures DefToks(def) == Spelled(def, Canonical(def))
  {
    var lines, clauses := LineToks(def), ClauseListToks(def.joins, def.tables);
    assert lines[0..] == lines && lines[2..] == clauses && clauses[0..] == clauses;
    JoinedNext(lines, 0, []);
    JoinedNext(lines, 1, []);
    SelectPrinted(def);
    TablePrinted(def.tables[0]);
    ClausesPrinted(def, 0);
    LinesFirst(lines[0], TableToks(def.tables[0]), JoinedToks(clauses, []));
  }

  lemma LinesFirst(select: seq<Token>, table: seq<Token>, clauses: seq<Token>)
    ensures select + ([] + (([Word("FROM")] + [] + table) + ([] + clauses))) + [End]
         == select + ([Word("FROM")] + (table + (clauses + [End])))
  {
  }

  /**
   * The canonical text of a definition, read with a catalog and a pair check it
   * meets, is read as exactly that definition.
   */
  lemma PrintThenParse(def: JoinDef, opts: Options)
    requires WellFormed(def) && Meets(def, opts)
    ensures Parse(Print(def), opts) == Success(def)
  {
    PrintedTokens(def);
    CanonicalFits(def);
    CanonicalTokens(def);
    Reads.SpelledIsRead(def, Canonical(def), opts);
  }
}

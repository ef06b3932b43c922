/** However a definition is written, it is read as that definition. */
module JoinSpellingRead {
  import opened Outcomes
  import opened Text
  import opened JoinTypes
  import opened JoinGrammar
  import opened JoinSpelling

  /** The pair check may be asked either way round, or need not be. */
  ghost predicate Askable(opts: Options, chs: seq<PairChoice>) {
    Symmetric(opts) || forall k :: 0 <= k < |chs| ==> !chs[k].laterFirst
  }

  ghost predicate AllAskable(opts: Options, ch: Choices) {
    forall i :: 0 <= i < |ch.clauses| ==> Askable(opts, ch.clauses[i].pairs)
  }

  lemma Around(first: seq<Token>, sep: seq<Token>, more: seq<Token>, rest: seq<Token>)
    ensures first + (sep + more) + rest == first + (sep + (more + rest))
    ensures first + ([] + []) + rest == first + rest
  {
  }

  lemma TwoFirst(a: Token, b: Token, rest: seq<Token>)
    ensures [a, b] + rest == [a] + ([b] + rest)
  {
  }

  lemma ThreeFirst(a: Token, b: Token, c: Token, rest: seq<Token>)
    ensures [a, b, c] + rest == [a] + ([b] + ([c] + rest))
  {
  }

  // ---- Words and names ----

  /** A keyword in any case is that keyword, no other, and no name. */
  lemma KeywordIs(word: string, i: nat)
    requires i < |KEYWORDS| && Says(word, KEYWORDS[i])
    ensures IsWord(Word(word), KEYWORDS[i]) && !IsName(Word(word)) && word != ""
    ensures forall j :: 0 <= j < |KEYWORDS| && j != i ==> !IsWord(Word(word), KEYWORDS[j])
  {
    ListedAt(KEYWORDS, i);
    forall j | 0 <= j < |KEYWORDS| && j != i
      ensures KEYWORDS[i] != KEYWORDS[j]
    {
      KeywordsDiffer(i, j);
    }
  }

  lemma KeywordsDiffer(i: nat, j: nat)
    requires i < |KEYWORDS| && j < |KEYWORDS| && i != j
    ensures KEYWORDS[i] != KEYWORDS[j]
  {
    assert KEYWORDS[0][..1] == "S" && KEYWORDS[1][..1] == "F" && KEYWORDS[2][..1] == "J" && KEYWORDS[3][..1] == "I";
    assert KEYWORDS[4][..1] == "L" && KEYWORDS[5][..2] == "OU" && KEYWORDS[6][..2] == "ON" && KEYWORDS[7][..2] == "AN";
    assert KEYWORDS[8][..2] == "AS";
  }

  const SELECT := 0
  const FROM := 1
  const JOIN := 2
  const INNER := 3
  const LEFT := 4
  const OUTER := 5
  const ON := 6
  const AND := 7
  const AS := 8

  lemma NameIs(name: string, quoted: bool)
    requires name != ""
    ensures var t := NameSpelled(name, quoted);
            IsName(t) && t.text == name && !t.Bad? && forall j :: 0 <= j < |KEYWORDS| ==> !IsWord(t, KEYWORDS[j])
  {
    var t := NameSpelled(name, quoted);
    forall j | 0 <= j < |KEYWORDS|
      ensures !IsWord(t, KEYWORDS[j])
    {
      ListedAt(KEYWORDS, j);
    }
  }

  lemma NameReads(name: string, quoted: bool, rest: seq<Token>)
    requires name != ""
    ensures NameToken([NameSpelled(name, quoted)] + rest) == Success((name, rest))
  {
    NameIs(name, quoted);
    assert ([NameSpelled(name, quoted)] + rest)[1..] == rest;
  }

  lemma WordReads(word: string, i: nat, rest: seq<Token>)
    requires i < |KEYWORDS| && Says(word, KEYWORDS[i])
    ensures ExpectWord([Word(word)] + rest, KEYWORDS[i]) == Success(rest)
  {
    KeywordIs(word, i);
    assert ([Word(word)] + rest)[1..] == rest;
  }

  // ---- Tables ----

  /** No name and no AS. */
  predicate EndsTable(rest: seq<Token>) {
    rest != [] && !rest[0].Bad? && !IsName(rest[0]) && !IsWord(rest[0], "AS")
  }

  lemma NamedAlias(alias: string, quoted: bool, rest: seq<Token>)
    requires alias != ""
    ensures Alias([NameSpelled(alias, quoted)] + rest) == Success((Some(alias), rest))
  {
    NameIs(alias, quoted);
    assert !IsWord(NameSpelled(alias, quoted), KEYWORDS[AS]);
    assert ([NameSpelled(alias, quoted)] + rest)[1..] == rest;
  }

  lemma AsAlias(word: string, alias: string, quoted: bool, rest: seq<Token>)
    requires alias != "" && Says(word, "AS")
    ensures Alias([Word(word)] + ([NameSpelled(alias, quoted)] + rest)) == Success((Some(alias), rest))
  {
    NameReads(alias, quoted, rest);
    var named := [NameSpelled(alias, quoted)] + rest;
    assert ([Word(word)] + named)[1..] == named;
  }

  lemma AliasReads(alias: Option<string>, ch: TableChoice, rest: seq<Token>)
    requires (alias.Some? ==> alias.value != "") && TableFits(ch) && EndsTable(rest)
    ensures Alias(AliasSpelled(alias, ch) + rest) == Success((alias, rest))
  {
    if alias.None? {
      assert AliasSpelled(alias, ch) + rest == rest;
    } else {
      var name := NameSpelled(alias.value, ch.aliasQuoted);
      if ch.asWord.Some? {
        AsAlias(ch.asWord.value, alias.value, ch.aliasQuoted, rest);
        ConcatAssoc([Word(ch.asWord.value)], [name], rest);
      } else {
        NamedAlias(alias.value, ch.aliasQuoted, rest);
        assert [] + [name] == [name];
      }
    }
  }

  lemma TableReads(t: JoinTable, ch: TableChoice, rest: seq<Token>, tables: seq<JoinTable>, opts: Options)
    requires t.WellFormed() && TableFits(ch) && EndsTable(rest)
    requires Resolve(tables, t.Name()).None? && opts.KnowsTable(t.table)
    ensures TableRef(TableSpelled(t, ch) + rest, tables, opts) == Success((tables + [t], rest))
  {
    var more := AliasSpelled(t.alias, ch) + rest;
    assert TableSpelled(t, ch) + rest == [NameSpelled(t.table, ch.quoted)] + more;
    NameReads(t.table, ch.quoted, more);
    AliasReads(t.alias, ch, rest);
  }

  // ---- Pairs ----

  lemma RefReads(table: string, column: string, ch: RefChoice, rest: seq<Token>)
    requires table != "" && column != ""
    ensures ColRef(RefSpelled(table, column, ch) + rest) == Success((Reference(table, column), rest))
  {
    var afterDot := [NameSpelled(column, ch.columnQuoted)] + rest;
    var afterName := [Symbol('.')] + afterDot;
    assert RefSpelled(table, column, ch) + rest == [NameSpelled(table, ch.tableQuoted)] + afterName;
    NameReads(table, ch.tableQuoted, afterName);
    NameReads(column, ch.columnQuoted, rest);
    assert afterName[1..] == afterDot;
  }

  lemma SidesRead(
    a: Reference, b: Reference, ca: RefChoice, cb: RefChoice, rest: seq<Token>)
    requires a.qualifier != "" && a.column != "" && b.qualifier != "" && b.column != ""
    ensures var toks := RefSpelled(a.qualifier, a.column, ca) + ([Symbol('=')] + RefSpelled(b.qualifier, b.column, cb));
            Sides(toks + rest) == Success((a, b, rest))
  {
    var first, second := RefSpelled(a.qualifier, a.column, ca), RefSpelled(b.qualifier, b.column, cb);
    var afterFirst := [Symbol('=')] + (second + rest);
    assert first + ([Symbol('=')] + second) + rest == first + afterFirst;
    RefReads(a.qualifier, a.column, ca, afterFirst);
    RefReads(b.qualifier, b.column, cb, rest);
    assert afterFirst[1..] == second + rest;
  }

  /** Whichever side is written first, the earlier table's column is on the left. */
  lemma EitherOrder(p: JoinPair, tables: seq<JoinTable>, opts: Options)
    requires TablesWF(tables) && tables != []
    requires PairsWF([p], |tables| - 1) && PairMeets(p, |tables| - 1, tables, opts)
    ensures var last := |tables| - 1;
            var left := Reference(tables[p.left.join].Name(), p.left.column);
            var right := Reference(tables[last].Name(), p.right);
            && MakePair(left, right, last, tables, opts) == Success(p)
            && (Symmetric(opts) ==> MakePair(right, left, last, tables, opts) == Success(p))
  {
    assert [p][0] == p;
    ResolveName(tables, p.left.join);
    ResolveName(tables, |tables| - 1);
  }

  lemma PairReads(p: JoinPair, ch: PairChoice, rest: seq<Token>, tables: seq<JoinTable>, opts: Options)
    requires TablesWF(tables) && tables != [] && (Symmetric(opts) || !ch.laterFirst)
    requires PairsWF([p], |tables| - 1) && PairMeets(p, |tables| - 1, tables, opts)
    ensures Pair(PairSpelled(p, |tables| - 1, tables, ch) + rest, tables, opts) == Success((p, rest))
  {
    assert [p][0] == p;
    var left := Reference(tables[p.left.join].Name(), p.left.column);
    var right := Reference(tables[|tables| - 1].Name(), p.right);
    EitherOrder(p, tables, opts);
    if ch.laterFirst {
      SidesRead(right, left, ch.right, ch.left, rest);
    } else {
      SidesRead(left, right, ch.left, ch.right, rest);
    }
  }

  /** The end of the text, `;`, or a word that opens a clause. */
  predicate EndsClause(rest: seq<Token>) {
    EndsTable(rest) && !IsWord(rest[0], "AND")
  }

  lemma PairsStep(
    toks: seq<Token>, tables: seq<JoinTable>, on: seq<JoinPair>, opts: Options, p: JoinPair, and: string,
    rest: seq<Token>)
    requires tables != [] && |on| + 1 < MAX_PAIRS && Says(and, "AND")
    requires Pair(toks, tables, opts) == Success((p, [Word(and)] + rest))
    ensures Pairs(toks, tables, on, opts) == Pairs(rest, tables, on + [p], opts)
  {
    assert ([Word(and)] + rest)[1..] == rest;
  }

  lemma PairsEnd(
    toks: seq<Token>, tables: seq<JoinTable>, on: seq<JoinPair>, opts: Options, p: JoinPair, rest: seq<Token>)
    requires tables != [] && |on| < MAX_PAIRS && EndsClause(rest)
    requires Pair(toks, tables, opts) == Success((p, rest))
    ensures Pairs(toks, tables, on, opts) == Success((on + [p], rest))
  {
  }

  lemma PairsSplit(
    on: seq<JoinPair>, k: nat, position: nat, tables: seq<JoinTable>, chs: seq<PairChoice>, rest: seq<Token>)
    requires k < |on| == |chs| && position < |tables| && PairsWF(on, position)
    ensures var first := PairSpelled(on[k], position, tables, chs[k]);
            var more := PairsSpelled(on, k + 1, position, tables, chs) + rest;
            PairsSpelled(on, k, position, tables, chs) + rest
            == first + if k + 1 < |on| then [Word(chs[k].andWord)] + more else rest
  {
    var first, more := PairSpelled(on[k], position, tables, chs[k]), PairsSpelled(on, k + 1, position, tables, chs);
    Around(first, [Word(chs[k].andWord)], more, rest);
  }

  lemma {:induction false} PairsRead(
    on: seq<JoinPair>, k: nat, chs: seq<PairChoice>, rest: seq<Token>, tables: seq<JoinTable>, opts: Options)
    requires TablesWF(tables) && tables != [] && PairsWF(on, |tables| - 1) && Askable(opts, chs)
    requires k < |on| <= MAX_PAIRS && PairsFit(on, chs) && EndsClause(rest)
    requires forall i :: 0 <= i < |on| ==> PairMeets(on[i], |tables| - 1, tables, opts)
    ensures Pairs(PairsSpelled(on, k, |tables| - 1, tables, chs) + rest, tables, on[..k], opts) == Success((on, rest))
    decreases |on| - k
  {
    var position := |tables| - 1;
    var first := PairSpelled(on[k], position, tables, chs[k]);
    assert PairsWF([on[k]], position);
    TakeNext(on, k);
    PairsSplit(on, k, position, tables, chs, rest);
    if k + 1 == |on| {
      PairReads(on[k], chs[k], rest, tables, opts);
      PairsEnd(first + rest, tables, on[..k], opts, on[k], rest);
    } else {
      var and, tail := chs[k].andWord, PairsSpelled(on, k + 1, position, tables, chs) + rest;
      PairReads(on[k], chs[k], [Word(and)] + tail, tables, opts);
      PairsRead(on, k + 1, chs, rest, tables, opts);
      PairsStep(first + ([Word(and)] + tail), tables, on[..k], opts, on[k], and, tail);
    }
  }

  // ---- Clauses ----

  lemma BareReads(join: string, rest: seq<Token>)
    requires Says(join, "JOIN")
    ensures JoinKind([Word(join)] + rest) == Success((InnerJoin, rest))
  {
    KeywordIs(join, JOIN);
    assert !IsWord(Word(join), KEYWORDS[INNER]) && !IsWord(Word(join), KEYWORDS[LEFT]);
    assert ([Word(join)] + rest)[1..] == rest;
  }

  lemma InnerReads(inner: string, join: string, rest: seq<Token>)
    requires Says(inner, "INNER") && Says(join, "JOIN")
    ensures JoinKind([Word(inner)] + ([Word(join)] + rest)) == Success((InnerJoin, rest))
  {
    WordReads(join, JOIN, rest);
    assert ([Word(inner)] + ([Word(join)] + rest))[1..] == [Word(join)] + rest;
  }

  lemma LeftReads(left: string, join: string, rest: seq<Token>)
    requires Says(left, "LEFT") && Says(join, "JOIN")
    ensures JoinKind([Word(left)] + ([Word(join)] + rest)) == Success((LeftJoin, rest))
  {
    KeywordIs(left, LEFT);
    KeywordIs(join, JOIN);
    assert !IsWord(Word(left), KEYWORDS[INNER]) && !IsWord(Word(join), KEYWORDS[OUTER]);
    WordReads(join, JOIN, rest);
    assert ([Word(left)] + ([Word(join)] + rest))[1..] == [Word(join)] + rest;
  }

  lemma OuterReads(left: string, outer: string, join: string, rest: seq<Token>)
    requires Says(left, "LEFT") && Says(outer, "OUTER") && Says(join, "JOIN")
    ensures JoinKind([Word(left)] + ([Word(outer)] + ([Word(join)] + rest))) == Success((LeftJoin, rest))
  {
    KeywordIs(left, LEFT);
    assert !IsWord(Word(left), KEYWORDS[INNER]);
    WordReads(join, JOIN, rest);
    var afterLeft := [Word(outer)] + ([Word(join)] + rest);
    assert ([Word(left)] + afterLeft)[1..] == afterLeft;
    assert afterLeft[1..] == [Word(join)] + rest;
  }

  lemma KindReads(kind: JoinType, ch: KindChoice, rest: seq<Token>)
    requires KindFits(kind, ch)
    ensures JoinKind(KindSpelled(ch) + rest) == Success((kind, rest))
  {
    match ch
    case Bare(join) => BareReads(join, rest);
    case WithInner(inner, join) =>
      InnerReads(inner, join, rest);
      TwoFirst(Word(inner), Word(join), rest);
    case WithLeft(left, join) =>
      LeftReads(left, join, rest);
      TwoFirst(Word(left), Word(join), rest);
    case WithOuter(left, outer, join) =>
      OuterReads(left, outer, join, rest);
      ThreeFirst(Word(left), Word(outer), Word(join), rest);
  }

  /** The word a clause starts with. */
  function FirstOf(ch: KindChoice): string {
    match ch
    case Bare(join) => join
    case WithInner(inner, _) => inner
    case WithLeft(left, _) => left
    case WithOuter(left, _, _) => left
  }

  lemma KindStarts(kind: JoinType, ch: KindChoice, rest: seq<Token>)
    requires KindFits(kind, ch)
    ensures EndsClause(KindSpelled(ch) + rest) && (KindSpelled(ch) + rest)[0].Word?
  {
    var i := if ch.Bare? then JOIN else if ch.WithInner? then INNER else LEFT;
    KeywordIs(FirstOf(ch), i);
    assert !IsWord(Word(FirstOf(ch)), KEYWORDS[AND]) && !IsWord(Word(FirstOf(ch)), KEYWORDS[AS]);
    assert (KindSpelled(ch) + rest)[0] == Word(FirstOf(ch));
  }

  lemma EarlierPair(p: JoinPair, position: nat, tables: seq<JoinTable>, ch: PairChoice)
    requires p.left.join < position < |tables|
    ensures PairSpelled(p, position, tables, ch) == PairSpelled(p, position, tables[..position + 1], ch)
  {
  }

  /** A clause only looks at the tables up to its own. */
  lemma {:induction false} EarlierTables(
    on: seq<JoinPair>, k: nat, position: nat, tables: seq<JoinTable>, chs: seq<PairChoice>)
    requires k <= |on| == |chs| && position < |tables| && PairsWF(on, position)
    ensures PairsSpelled(on, k, position, tables, chs) == PairsSpelled(on, k, position, tables[..position + 1], chs)
    decreases |on| - k
  {
    if k < |on| {
      EarlierPair(on[k], position, tables, chs[k]);
      EarlierTables(on, k + 1, position, tables, chs);
    }
  }

  lemma TablesPrefix(tables: seq<JoinTable>, n: nat)
    requires TablesWF(tables) && n < |tables|
    ensures TablesWF(tables[..n + 1]) && tables[..n + 1] == tables[..n] + [tables[n]]
    ensures Resolve(tables[..n], tables[n].Name()).None?
  {
    var r := Resolve(tables[..n], tables[n].Name());
    if r.Some? {
      assert false;
    }
  }

  lemma PairsMeetEarlier(on: seq<JoinPair>, position: nat, tables: seq<JoinTable>, opts: Options)
    requires position < |tables| && forall k :: 0 <= k < |on| ==> PairMeets(on[k], position, tables, opts)
    ensures forall k :: 0 <= k < |on| ==> PairMeets(on[k], position, tables[..position + 1], opts)
  {
  }

  lemma JoinedReads(
    j: JoinClause, tables: seq<JoinTable>, position: nat, ch: ClauseChoice, rest: seq<Token>, opts: Options)
    requires TablesWF(tables) && 0 < position < |tables| && Askable(opts, ch.pairs)
    requires 1 <= |j.on| <= MAX_PAIRS && PairsWF(j.on, position) && ClauseFits(j, ch) && EndsClause(rest)
    requires opts.KnowsTable(tables[position].table)
    requires forall k :: 0 <= k < |j.on| ==> PairMeets(j.on[k], position, tables, opts)
    ensures var pairs := PairsSpelled(j.on, 0, position, tables, ch.pairs);
            Joined(TableSpelled(tables[position], ch.table) + ([Word(ch.onWord)] + (pairs + rest)), tables[..position], opts)
            == Success((tables[..position + 1], j.on, rest))
  {
    var upTo := tables[..position + 1];
    var pairs := PairsSpelled(j.on, 0, position, tables, ch.pairs) + rest;
    TablesPrefix(tables, position);
    KeywordIs(ch.onWord, ON);
    TableReads(tables[position], ch.table, [Word(ch.onWord)] + pairs, tables[..position], opts);
    WordReads(ch.onWord, ON, pairs);
    EarlierTables(j.on, 0, position, tables, ch.pairs);
    PairsMeetEarlier(j.on, position, tables, opts);
    PairsRead(j.on, 0, ch.pairs, rest, upTo, opts);
    assert j.on[..0] == [];
  }

  lemma ClauseReads(
    j: JoinClause, tables: seq<JoinTable>, position: nat, ch: ClauseChoice, rest: seq<Token>, opts: Options)
    requires TablesWF(tables) && 0 < position < |tables| <= MAX_TABLES && Askable(opts, ch.pairs)
    requires 1 <= |j.on| <= MAX_PAIRS && PairsWF(j.on, position) && ClauseFits(j, ch) && EndsClause(rest)
    requires opts.KnowsTable(tables[position].table)
    requires forall k :: 0 <= k < |j.on| ==> PairMeets(j.on[k], position, tables, opts)
    ensures Clause(ClauseSpelled(j, position, tables, ch) + rest, tables[..position], opts)
         == Success((tables[..position + 1], j, rest))
    ensures EndsClause(ClauseSpelled(j, position, tables, ch) + rest)
    ensures (ClauseSpelled(j, position, tables, ch) + rest)[0].Word?
  {
    var pairs := PairsSpelled(j.on, 0, position, tables, ch.pairs);
    var table := TableSpelled(tables[position], ch.table);
    ClauseSplit(KindSpelled(ch.kind), table, [Word(ch.onWord)], pairs, rest);
    KindReads(j.kind, ch.kind, table + ([Word(ch.onWord)] + (pairs + rest)));
    KindStarts(j.kind, ch.kind, table + ([Word(ch.onWord)] + (pairs + rest)));
    JoinedReads(j, tables, position, ch, rest, opts);
  }

  lemma ClauseSplit(kind: seq<Token>, table: seq<Token>, on: seq<Token>, pairs: seq<Token>, rest: seq<Token>)
    ensures kind + (table + (on + pairs)) + rest == kind + (table + (on + (pairs + rest)))
  {
  }

  /** What ends the text after the last clause. */
  function Ending(semicolon: bool): seq<Token> {
    (if semicolon then [Symbol(';')] else []) + [End]
  }

  lemma ClausesEnd(def: JoinDef, i: nat, ch: Choices)
    requires WellFormed(def) && Fits(def, ch) && i <= |def.joins|
    ensures EndsClause(ClausesSpelled(def, i, ch))
  {
    if i < |def.joins| {
      var j, chosen := def.joins[i], ch.clauses[i];
      assert ClauseFits(j, chosen);
      var clause := TableSpelled(def.tables[i + 1], chosen.table)
                    + ([Word(chosen.onWord)] + PairsSpelled(j.on, 0, i + 1, def.tables, chosen.pairs));
      KindStarts(j.kind, chosen.kind, clause + ClausesSpelled(def, i + 1, ch));
      ConcatAssoc(KindSpelled(chosen.kind), clause, ClausesSpelled(def, i + 1, ch));
    }
  }

  lemma FitsAt(def: JoinDef, i: nat, ch: Choices, opts: Options)
    requires WellFormed(def) && Meets(def, opts) && Fits(def, ch) && AllAskable(opts, ch) && i < |def.joins|
    ensures ClauseFits(def.joins[i], ch.clauses[i]) && Askable(opts, ch.clauses[i].pairs)
    ensures 1 <= |def.joins[i].on| <= MAX_PAIRS && PairsWF(def.joins[i].on, i + 1)
    ensures opts.KnowsTable(def.tables[i + 1].table)
    ensures forall k :: 0 <= k < |def.joins[i].on| ==> PairMeets(def.joins[i].on[k], i + 1, def.tables, opts)
  {
  }

  lemma ClausesNext(def: JoinDef, i: nat, ch: Choices)
    requires WellFormed(def) && Fits(def, ch) && i < |def.joins|
    ensures ClauseFits(def.joins[i], ch.clauses[i]) && PairsWF(def.joins[i].on, i + 1)
    ensures ClausesSpelled(def, i, ch)
         == ClauseSpelled(def.joins[i], i + 1, def.tables, ch.clauses[i]) + ClausesSpelled(def, i + 1, ch)
  {
  }

  /** The clauses from `i` on, `toks`, are clause `i` and `rest`. */
  lemma ClauseAt(def: JoinDef, i: nat, ch: Choices, opts: Options) returns (toks: seq<Token>, rest: seq<Token>)
    requires WellFormed(def) && Meets(def, opts) && Fits(def, ch) && AllAskable(opts, ch) && i < |def.joins|
    ensures toks == ClausesSpelled(def, i, ch) && rest == ClausesSpelled(def, i + 1, ch)
    ensures Clause(toks, def.tables[..i + 1], opts) == Success((def.tables[..i + 2], def.joins[i], rest))
    ensures EndsClause(toks) && toks[0].Word?
  {
    FitsAt(def, i, ch, opts);
    toks, rest := ClausesApart(def, i, ch);
    ClauseIs(toks, def.joins[i], def.tables, i + 1, ch.clauses[i], rest, opts);
  }

  lemma ClausesApart(def: JoinDef, i: nat, ch: Choices) returns (toks: seq<Token>, rest: seq<Token>)
    requires WellFormed(def) && Fits(def, ch) && i < |def.joins|
    ensures toks == ClausesSpelled(def, i, ch) && rest == ClausesSpelled(def, i + 1, ch) && EndsClause(rest)
    ensures ClauseFits(def.joins[i], ch.clauses[i]) && PairsWF(def.joins[i].on, i + 1)
    ensures toks == ClauseSpelled(def.joins[i], i + 1, def.tables, ch.clauses[i]) + rest
  {
    toks, rest := ClausesSpelled(def, i, ch), ClausesSpelled(def, i + 1, ch);
    ClausesEnd(def, i + 1, ch);
    ClausesNext(def, i, ch);
  }

  lemma ClauseIs(
    toks: seq<Token>, j: JoinClause, tables: seq<JoinTable>, position: nat, ch: ClauseChoice, rest: seq<Token>,
    opts: Options)
    requires TablesWF(tables) && 0 < position < |tables| <= MAX_TABLES && Askable(opts, ch.pairs)
    requires 1 <= |j.on| <= MAX_PAIRS && PairsWF(j.on, position) && ClauseFits(j, ch) && EndsClause(rest)
    requires opts.KnowsTable(tables[position].table)
    requires forall k :: 0 <= k < |j.on| ==> PairMeets(j.on[k], position, tables, opts)
    requires toks == ClauseSpelled(j, position, tables, ch) + rest
    ensures Clause(toks, tables[..position], opts) == Success((tables[..position + 1], j, rest))
    ensures EndsClause(toks) && toks[0].Word?
  {
    ClauseReads(j, tables, position, ch, rest, opts);
  }

  lemma ClausesStep(
    toks: seq<Token>, tables: seq<JoinTable>, joins: seq<JoinClause>, opts: Options,
    tables': seq<JoinTable>, j: JoinClause, rest: seq<Token>)
    requires |tables| <= MAX_TABLES && EndsClause(toks) && toks[0].Word?
    requires Clause(toks, tables, opts) == Success((tables', j, rest))
    ensures |tables'| <= MAX_TABLES
    ensures Clauses(toks, tables, joins, opts) == Clauses(rest, tables', joins + [j], opts)
  {
  }

  lemma {:induction false} ClausesRead(def: JoinDef, i: nat, ch: Choices, opts: Options)
    requires WellFormed(def) && Meets(def, opts) && Fits(def, ch) && AllAskable(opts, ch) && i <= |def.joins|
    ensures Clauses(ClausesSpelled(def, i, ch), def.tables[..i + 1], def.joins[..i], opts)
         == Success((def.tables, def.joins, Ending(ch.semicolon)))
    decreases |def.joins| - i
  {
    if i == |def.joins| {
      assert def.tables[..i + 1] == def.tables && def.joins[..i] == def.joins;
    } else {
      var toks, rest := ClauseAt(def, i, ch, opts);
      ClausesStep(toks, def.tables[..i + 1], def.joins[..i], opts, def.tables[..i + 2], def.joins[i], rest);
      TakeNext(def.joins, i);
      ClausesRead(def, i + 1, ch, opts);
    }
  }

  // ---- Select list ----

  function ItemOf(c: JoinColumn, tables: seq<JoinTable>): Item
    requires c.join < |tables|
  {
    Item(tables[c.join].Name(), if c.Whole? then None else Some(c.column))
  }

  function ItemsOf(cs: seq<JoinColumn>, tables: seq<JoinTable>): seq<Item>
    requires ColumnsWF(cs, |tables|)
  {
    seq(|cs|, k requires 0 <= k < |cs| => ItemOf(cs[k], tables))
  }

  lemma ItemReads(c: JoinColumn, tables: seq<JoinTable>, ch: RefChoice, rest: seq<Token>)
    requires c.join < |tables| && TablesWF(tables) && (c.Single? ==> c.column != "")
    ensures SelectItem(ItemSpelled(c, tables, ch) + rest) == Success((ItemOf(c, tables), rest))
  {
    var name := tables[c.join].Name();
    var last := if c.Whole? then Symbol('*') else NameSpelled(c.column, ch.columnQuoted);
    var afterDot := [last] + rest;
    var afterName := [Symbol('.')] + afterDot;
    assert ItemSpelled(c, tables, ch) + rest == [NameSpelled(name, ch.tableQuoted)] + afterName;
    NameReads(name, ch.tableQuoted, afterName);
    assert afterName[1..] == afterDot && afterDot[1..] == rest;
    if c.Single? {
      NameReads(c.column, ch.columnQuoted, rest);
      NameIs(c.column, ch.columnQuoted);
    }
  }

  /** What follows a select list. */
  predicate StartsFrom(rest: seq<Token>) {
    rest != [] && IsWord(rest[0], "FROM")
  }

  lemma ItemsStep(toks: seq<Token>, items: seq<Item>, item: Item, rest: seq<Token>)
    requires SelectItem(toks) == Success((item, [Symbol(',')] + rest))
    ensures SelectItems(toks, items) == SelectItems(rest, items + [item])
  {
    assert ([Symbol(',')] + rest)[1..] == rest;
  }

  lemma ItemsEnd(toks: seq<Token>, items: seq<Item>, item: Item, rest: seq<Token>)
    requires SelectItem(toks) == Success((item, rest)) && StartsFrom(rest)
    ensures SelectItems(toks, items) == Success((items + [item], rest))
  {
  }

  lemma ItemsSplit(cs: seq<JoinColumn>, k: nat, tables: seq<JoinTable>, chs: seq<RefChoice>, rest: seq<Token>)
    requires ColumnsWF(cs, |tables|) && k < |cs| == |chs|
    ensures var first, more := ItemSpelled(cs[k], tables, chs[k]), ItemsSpelled(cs, k + 1, tables, chs) + rest;
            ItemsSpelled(cs, k, tables, chs) + rest
            == first + if k + 1 < |cs| then [Symbol(',')] + more else rest
  {
    Around(ItemSpelled(cs[k], tables, chs[k]), [Symbol(',')], ItemsSpelled(cs, k + 1, tables, chs), rest);
  }

  lemma {:induction false} ItemsRead(
    cs: seq<JoinColumn>, k: nat, tables: seq<JoinTable>, chs: seq<RefChoice>, rest: seq<Token>)
    requires ColumnsWF(cs, |tables|) && TablesWF(tables) && k < |cs| == |chs| && StartsFrom(rest)
    ensures SelectItems(ItemsSpelled(cs, k, tables, chs) + rest, ItemsOf(cs, tables)[..k])
         == Success((ItemsOf(cs, tables), rest))
    decreases |cs| - k
  {
    var items := ItemsOf(cs, tables);
    var first, tail := ItemSpelled(cs[k], tables, chs[k]), ItemsSpelled(cs, k + 1, tables, chs) + rest;
    TakeNext(items, k);
    ItemsSplit(cs, k, tables, chs, rest);
    if k + 1 == |cs| {
      ItemReads(cs[k], tables, chs[k], rest);
      ItemsEnd(first + rest, items[..k], items[k], rest);
    } else {
      ItemReads(cs[k], tables, chs[k], [Symbol(',')] + tail);
      ItemsStep(first + ([Symbol(',')] + tail), items[..k], items[k], tail);
      ItemsRead(cs, k + 1, tables, chs, rest);
    }
  }

  lemma NotSelected(cs: seq<JoinColumn>, k: nat)
    requires k < |cs| && forall i, j :: 0 <= i < j < |cs| ==> !Overlap(cs[i], cs[j])
    ensures !Selected(cs[..k], cs[k])
  {
    forall i | 0 <= i < k
      ensures !Overlap(cs[..k][i], cs[k])
    {
      assert cs[..k][i] == cs[i];
    }
  }

  lemma {:induction false} ColumnsRead(cs: seq<JoinColumn>, k: nat, tables: seq<JoinTable>, opts: Options)
    requires TablesWF(tables) && ColumnsWF(cs, |tables|) && k <= |cs|
    requires forall i :: 0 <= i < |cs| ==> ColumnMeets(cs[i], tables, opts)
    ensures Columns(ItemsOf(cs, tables)[k..], cs[..k], tables, opts) == Success(cs)
    decreases |cs| - k
  {
    var items := ItemsOf(cs, tables)[k..];
    if k == |cs| {
      assert cs[..k] == cs;
    } else {
      ResolveName(tables, cs[k].join);
      assert items[0] == ItemOf(cs[k], tables);
      assert items[1..] == ItemsOf(cs, tables)[k + 1..];
      assert cs[..k] + [cs[k]] == cs[..k + 1];
      NotSelected(cs, k);
      ColumnsRead(cs, k + 1, tables, opts);
    }
  }

  function ItemsAsked(columns: Option<seq<JoinColumn>>, tables: seq<JoinTable>): Option<seq<Item>>
    requires columns.Some? ==> ColumnsWF(columns.value, |tables|)
  {
    if columns.None? then None else Some(ItemsOf(columns.value, tables))
  }

  lemma SelectReads(columns: Option<seq<JoinColumn>>, tables: seq<JoinTable>, ch: SelectChoice, rest: seq<Token>)
    requires TablesWF(tables) && SelectFits(columns, ch) && StartsFrom(rest) && !IsWord(rest[0], "SELECT")
    requires columns.Some? ==> columns.value != [] && ColumnsWF(columns.value, |tables|)
    ensures Select(SelectSpelled(columns, tables, ch) + rest) == Success((ItemsAsked(columns, tables), rest))
  {
    match ch
    case Absent =>
      assert SelectSpelled(columns, tables, ch) + rest == rest;
    case Star(select) =>
      KeywordIs(select, SELECT);
      StarReads(select, rest);
    case Listing(select, items) =>
      var list := ItemsSpelled(columns.value, 0, tables, items) + rest;
      KeywordIs(select, SELECT);
      assert SelectSpelled(columns, tables, ch) + rest == [Word(select)] + list;
      ItemsRead(columns.value, 0, tables, items, rest);
      assert ItemsOf(columns.value, tables)[..0] == [];
      ListStarts(columns.value, tables, items, rest);
      ListReads(select, list, ItemsOf(columns.value, tables), rest);
  }

  lemma StarReads(select: string, rest: seq<Token>)
    requires IsWord(Word(select), "SELECT") && StartsFrom(rest)
    ensures Select([Word(select), Symbol('*')] + rest) == Success((None, rest))
  {
    var toks := [Word(select), Symbol('*')] + rest;
    assert toks[1..] == [Symbol('*')] + rest;
    assert toks[1..][1..] == rest;
  }

  lemma ListReads(select: string, list: seq<Token>, items: seq<Item>, rest: seq<Token>)
    requires IsWord(Word(select), "SELECT") && list != [] && IsName(list[0])
    requires SelectItems(list, []) == Success((items, rest))
    ensures Select([Word(select)] + list) == Success((Some(items), rest))
  {
    assert ([Word(select)] + list)[1..] == list;
  }

  /** A select list starts with a name, never with `*`. */
  lemma ListStarts(cs: seq<JoinColumn>, tables: seq<JoinTable>, chs: seq<RefChoice>, rest: seq<Token>)
    requires ColumnsWF(cs, |tables|) && TablesWF(tables) && cs != [] && |chs| == |cs|
    ensures var list := ItemsSpelled(cs, 0, tables, chs) + rest; list != [] && IsName(list[0])
  {
    var name := tables[cs[0].join].Name();
    NameIs(name, chs[0].tableQuoted);
    assert ItemsSpelled(cs, 0, tables, chs)[0] == NameSpelled(name, chs[0].tableQuoted);
  }

  // ---- The whole text ----

  lemma FinishReads(def: JoinDef, semicolon: bool, opts: Options)
    requires WellFormed(def) && Meets(def, opts)
    ensures Finish(ItemsAsked(def.columns, def.tables), def.tables, def.joins, Ending(semicolon), opts) == Success(def)
  {
    if def.columns.Some? {
      var cs := def.columns.value;
      ColumnsRead(cs, 0, def.tables, opts);
      assert ItemsOf(cs, def.tables)[0..] == ItemsOf(cs, def.tables) && cs[..0] == [];
    }
    if semicolon {
      assert Ending(semicolon)[1..] == [End];
    }
  }

  lemma FromTableSteps(
    items: Option<seq<Item>>, toks: seq<Token>, base: seq<JoinTable>, afterBase: seq<Token>, def: JoinDef,
    ending: seq<Token>, opts: Options)
    requires TableRef(toks, [], opts) == Success((base, afterBase)) && |base| <= MAX_TABLES
    requires Clauses(afterBase, base, [], opts) == Success((def.tables, def.joins, ending))
    ensures FromTable(items, toks, opts) == Finish(items, def.tables, def.joins, ending, opts)
  {
  }

  lemma BaseReads(def: JoinDef, ch: Choices, opts: Options)
    requires WellFormed(def) && Meets(def, opts) && Fits(def, ch)
    ensures TableRef(TableSpelled(def.tables[0], ch.base) + ClausesSpelled(def, 0, ch), [], opts)
         == Success((def.tables[..1], ClausesSpelled(def, 0, ch)))
  {
    ClausesEnd(def, 0, ch);
    TableReads(def.tables[0], ch.base, ClausesSpelled(def, 0, ch), [], opts);
    assert [] + [def.tables[0]] == def.tables[..1];
  }

  lemma FromTableReads(def: JoinDef, ch: Choices, opts: Options)
    requires WellFormed(def) && Meets(def, opts) && Fits(def, ch) && AllAskable(opts, ch)
    ensures FromTable(
              ItemsAsked(def.columns, def.tables), TableSpelled(def.tables[0], ch.base) + ClausesSpelled(def, 0, ch), opts)
         == Success(def)
  {
    BaseReads(def, ch, opts);
    ClausesRead(def, 0, ch, opts);
    assert def.joins[..0] == [];
    FromTableSteps(
      ItemsAsked(def.columns, def.tables), TableSpelled(def.tables[0], ch.base) + ClausesSpelled(def, 0, ch),
      def.tables[..1], ClausesSpelled(def, 0, ch), def, Ending(ch.semicolon), opts);
    FinishReads(def, ch.semicolon, opts);
  }

  /** Whatever the wording, order and quoting: a definition that meets the catalog is read as itself. */
  lemma SpelledIsRead(def: JoinDef, ch: Choices, opts: Options)
    requires WellFormed(def) && Meets(def, opts) && Fits(def, ch) && AllAskable(opts, ch)
    ensures Statement(Spelled(def, ch), opts) == Success(def)
  {
    var table := TableSpelled(def.tables[0], ch.base) + ClausesSpelled(def, 0, ch);
    var from := [Word(ch.fromWord)] + table;
    KeywordIs(ch.fromWord, FROM);
    SelectReads(def.columns, def.tables, ch.select, from);
    WordReads(ch.fromWord, FROM, table);
    FromTableReads(def, ch, opts);
    FirstWord(def, ch, from);
  }

  lemma FirstWord(def: JoinDef, ch: Choices, from: seq<Token>)
    requires WellFormed(def) && Fits(def, ch) && from != [] && from[0].Word?
    ensures var toks := SelectSpelled(def.columns, def.tables, ch.select) + from; toks != [] && toks[0].Word?
  {
  }
}

/** Whatever the grammar accepts is a spelling of the definition it is read as. */
module JoinSpellingOnly {
  import opened Outcomes
  import opened Text
  import opened JoinTypes
  import opened JoinGrammar
  import opened JoinSpelling
  import opened Reads = JoinSpellingRead
  import Catalogs = JoinCatalog
  import Soundness = JoinSoundness

  // ---- What the lexer writes ----

  predicate LexedToken(t: Token) {
    (t.Word? ==> IsBareName(t.text)) && (t.Quoted? ==> t.text != "")
  }

  /** The end of the text, or text that starts no token. */
  predicate IsLast(t: Token) {
    t.End? || t.Bad?
  }

  /** Words are bare names, no name is empty, and the list ends where the text does or stops making sense. */
  ghost predicate Lexed(toks: seq<Token>) {
    && toks != [] && IsLast(toks[|toks| - 1])
    && (forall i :: 0 <= i < |toks| - 1 ==> !IsLast(toks[i]))
    && (forall i :: 0 <= i < |toks| ==> LexedToken(toks[i]))
  }

  lemma LexTokenLexed(s: string)
    requires s != ""
    ensures LexedToken(LexToken(s).0)
  {
    if !StartsComment(s) && s[0] != '"' && IsNameStart(s[0]) {
      var n := 1 + Span(NameChar, s[1..]);
      assert forall i :: 1 <= i < n ==> s[i] == s[1..][i - 1];
    }
  }

  lemma LexedMore(t: Token, toks: seq<Token>)
    requires LexedToken(t) && !IsLast(t) && Lexed(toks)
    ensures Lexed([t] + toks)
  {
    var all := [t] + toks;
    assert forall i :: 1 <= i < |all| ==> all[i] == toks[i - 1];
  }

  lemma {:induction false} TokensLexed(s: string)
    ensures Lexed(Tokens(s))
    decreases |s|
  {
    var r := s[Span(Space, s)..];
    if r != "" {
      var (tok, n) := LexToken(r);
      LexTokenLexed(r);
      if !tok.Bad? {
        TokensLexed(r[n..]);
        LexedMore(tok, Tokens(r[n..]));
      }
    }
  }

  lemma LexedNamed(toks: seq<Token>)
    requires Lexed(toks)
    ensures Soundness.Named(toks)
  {
  }

  lemma LexedRest(toks: seq<Token>)
    requires Lexed(toks) && !IsLast(toks[0])
    ensures Lexed(toks[1..])
  {
    assert forall i :: 0 <= i < |toks| - 1 ==> toks[1..][i] == toks[i + 1];
  }

  // ---- Names and tables ----

  lemma NameOnly(toks: seq<Token>) returns (quoted: bool)
    requires Lexed(toks) && NameToken(toks).Success?
    ensures var (name, rest) := NameToken(toks).value;
            toks == [NameSpelled(name, quoted)] + rest && rest == toks[1..] && name != "" && Lexed(rest)
  {
    assert LexedToken(toks[0]);
    quoted := toks[0].Quoted?;
    LexedRest(toks);
  }

  lemma WordOnly(toks: seq<Token>, keyword: string) returns (word: string)
    requires Lexed(toks) && keyword != "" && ExpectWord(toks, keyword).Success?
    ensures Says(word, keyword) && toks == [Word(word)] + ExpectWord(toks, keyword).value
    ensures Lexed(ExpectWord(toks, keyword).value)
  {
    word := toks[0].text;
    LexedRest(toks);
  }

  lemma AliasOnly(toks: seq<Token>, quoted: bool) returns (ch: TableChoice)
    requires Lexed(toks) && Alias(toks).Success?
    ensures var (alias, rest) := Alias(toks).value;
            TableFits(ch) && ch.quoted == quoted && toks == AliasSpelled(alias, ch) + rest && Lexed(rest)
  {
    ch := TableChoice(quoted, None, false);
    if toks != [] && IsWord(toks[0], "AS") {
      LexedRest(toks);
      var q := NameOnly(toks[1..]);
      ch := TableChoice(quoted, Some(toks[0].text), q);
      AsWritten(toks, Alias(toks).value.0.value, q, Alias(toks).value.1, ch);
    } else if toks != [] && IsName(toks[0]) {
      var q := NameOnly(toks);
      ch := TableChoice(quoted, None, q);
      var name := NameSpelled(toks[0].text, q);
      assert [] + [name] == [name];
    } else {
      assert [] + toks == toks;
    }
  }

  lemma AsWritten(toks: seq<Token>, alias: string, q: bool, rest: seq<Token>, ch: TableChoice)
    requires toks != [] && toks[0].Word? && toks[1..] == [NameSpelled(alias, q)] + rest
    requires ch.asWord == Some(toks[0].text) && ch.aliasQuoted == q
    ensures toks == AliasSpelled(Some(alias), ch) + rest
  {
    assert toks == [toks[0]] + toks[1..];
    ConcatAssoc([toks[0]], [NameSpelled(alias, q)], rest);
  }

  lemma TableOnly(toks: seq<Token>, tables: seq<JoinTable>, opts: Options) returns (ch: TableChoice)
    requires Lexed(toks) && TableRef(toks, tables, opts).Success?
    ensures var (tables', rest) := TableRef(toks, tables, opts).value;
            && |tables'| == |tables| + 1 && TableFits(ch) && Lexed(rest)
            && toks == TableSpelled(tables'[|tables|], ch) + rest
  {
    var quoted := NameOnly(toks);
    var (name, afterName) := NameToken(toks).value;
    ch := AliasOnly(afterName, quoted);
    var (alias, rest) := Alias(afterName).value;
    var (tables', _) := TableRef(toks, tables, opts).value;
    assert tables'[|tables|] == JoinTable(name, alias);
    ConcatAssoc([NameSpelled(name, quoted)], AliasSpelled(alias, ch), rest);
  }

  // ---- Pairs ----

  lemma RefOnly(toks: seq<Token>) returns (ch: RefChoice)
    requires Lexed(toks) && ColRef(toks).Success?
    ensures var (r, rest) := ColRef(toks).value;
            toks == RefSpelled(r.qualifier, r.column, ch) + rest && Lexed(rest)
  {
    var a := NameOnly(toks);
    var (qualifier, afterName) := NameToken(toks).value;
    LexedRest(afterName);
    var b := NameOnly(afterName[1..]);
    var (column, rest) := NameToken(afterName[1..]).value;
    ch := RefChoice(a, b);
    assert afterName == [Symbol('.')] + afterName[1..];
    ThreeFirst(NameSpelled(qualifier, a), Symbol('.'), NameSpelled(column, b), rest);
  }

  lemma SidesOnly(toks: seq<Token>) returns (ca: RefChoice, cb: RefChoice)
    requires Lexed(toks) && Sides(toks).Success?
    ensures var (a, b, rest) := Sides(toks).value;
            && toks == RefSpelled(a.qualifier, a.column, ca)
                       + ([Symbol('=')] + RefSpelled(b.qualifier, b.column, cb)) + rest
            && Lexed(rest)
  {
    ca := RefOnly(toks);
    var (a, afterFirst) := ColRef(toks).value;
    LexedRest(afterFirst);
    cb := RefOnly(afterFirst[1..]);
    var (b, rest) := ColRef(afterFirst[1..]).value;
    assert afterFirst == [Symbol('=')] + afterFirst[1..];
    Around(RefSpelled(a.qualifier, a.column, ca), [Symbol('=')], RefSpelled(b.qualifier, b.column, cb), rest);
  }

  /** A pair names its two tables by the names of their positions. */
  lemma PairNames(first: Reference, second: Reference, tables: seq<JoinTable>, opts: Options)
    requires tables != [] && MakePair(first, second, |tables| - 1, tables, opts).Success?
    ensures var p := MakePair(first, second, |tables| - 1, tables, opts).value;
            && p.left.join < |tables| - 1
            && var left := Reference(tables[p.left.join].Name(), p.left.column);
               var right := Reference(tables[|tables| - 1].Name(), p.right);
               (left == first && right == second) || (left == second && right == first)
  {
  }

  lemma PairOnly(toks: seq<Token>, tables: seq<JoinTable>, opts: Options, and: string) returns (ch: PairChoice)
    requires Lexed(toks) && tables != [] && Pair(toks, tables, opts).Success?
    ensures var (p, rest) := Pair(toks, tables, opts).value;
            && p.left.join < |tables| - 1 && ch.andWord == and && Lexed(rest)
            && toks == PairSpelled(p, |tables| - 1, tables, ch) + rest
  {
    var ca, cb := SidesOnly(toks);
    var (first, second, rest) := Sides(toks).value;
    PairNames(first, second, tables, opts);
    var p := MakePair(first, second, |tables| - 1, tables, opts).value;
    if Reference(tables[p.left.join].Name(), p.left.column) == first
       && Reference(tables[|tables| - 1].Name(), p.right) == second {
      ch := PairChoice(false, ca, cb, and);
    } else {
      ch := PairChoice(true, cb, ca, and);
    }
  }

  /** The word that stands where another pair would follow. */
  function AndAt(toks: seq<Token>): string {
    if toks != [] && toks[0].Word? then toks[0].text else ""
  }

  /** `toks` are the pairs of `all` from `k` on, written by `chs`, and then `rest`. */
  ghost predicate PairsWritten(
    toks: seq<Token>, all: seq<JoinPair>, k: nat, tables: seq<JoinTable>, chs: seq<PairChoice>, rest: seq<Token>)
  {
    && k <= |all| == |chs| && tables != [] && PairsWF(all, |tables| - 1)
    && toks == PairsSpelled(all, k, |tables| - 1, tables, chs) + rest
  }

  ghost predicate AllAnd(chs: seq<PairChoice>) {
    forall k :: 0 <= k < |chs| ==> Says(chs[k].andWord, "AND")
  }

  lemma AllAndMore(chs: seq<PairChoice>, ch: PairChoice)
    requires AllAnd(chs)
    ensures Says(ch.andWord, "AND") ==> AllAnd(chs + [ch])
  {
  }

  lemma LastFits(on: seq<JoinPair>, p: JoinPair, chs: seq<PairChoice>, ch: PairChoice)
    requires AllAnd(chs) && |chs| == |on|
    ensures PairsFit(on + [p], chs + [ch])
  {
  }

  /** `all` goes on from `some`. */
  ghost predicate GoesOn<T(!new)>(some: seq<T>, all: seq<T>) {
    |some| <= |all| && forall i :: 0 <= i < |some| ==> all[i] == some[i]
  }

  lemma GoesOnFrom<T(!new)>(some: seq<T>, x: T, all: seq<T>)
    requires GoesOn(some + [x], all)
    ensures GoesOn(some, all) && |some| < |all| && all[|some|] == x
  {
    assert (some + [x])[|some|] == x;
    assert forall i :: 0 <= i < |some| ==> (some + [x])[i] == some[i];
  }

  lemma {:induction false} PairsOnly(
    toks: seq<Token>, tables: seq<JoinTable>, on: seq<JoinPair>, opts: Options, before: seq<PairChoice>)
    returns (chs: seq<PairChoice>)
    requires Lexed(toks) && tables != [] && |before| == |on| < MAX_PAIRS && PairsWF(on, |tables| - 1)
    requires AllAnd(before) && Pairs(toks, tables, on, opts).Success?
    ensures var (all, rest) := Pairs(toks, tables, on, opts).value;
            && |on| < |all| && GoesOn(on, all) && PairsFit(all, chs) && GoesOn(before, chs) && Lexed(rest)
            && PairsWritten(toks, all, |on|, tables, chs, rest)
    decreases MAX_PAIRS - |on|
  {
    var (p, rest) := Pair(toks, tables, opts).value;
    PairIsSound(toks, tables, on, opts);
    PairsGoOn(toks, tables, on, opts);
    var ch := PairOnly(toks, tables, opts, AndAt(rest));
    if IsWord(Peek(rest).value, "AND") {
      var after := AfterAnd(rest);
      AllAndMore(before, ch);
      chs := PairsOnly(after, tables, on + [p], opts, before + [ch]);
      var (all, end) := Pairs(after, tables, on + [p], opts).value;
      PairThen(toks, after, on, p, all, tables, before, ch, chs, end);
    } else {
      chs := before + [ch];
      LastFits(on, p, before, ch);
      PairLast(toks, on, p, tables, before, ch, rest);
    }
  }

  lemma PairThen(
    toks: seq<Token>, after: seq<Token>, on: seq<JoinPair>, p: JoinPair, all: seq<JoinPair>, tables: seq<JoinTable>,
    before: seq<PairChoice>, ch: PairChoice, chs: seq<PairChoice>, end: seq<Token>)
    requires |before| == |on| && GoesOn(on + [p], all) && |on| + 1 < |all| && GoesOn(before + [ch], chs)
    requires PairsWritten(after, all, |on| + 1, tables, chs, end) && p.left.join < |tables|
    requires toks == PairSpelled(p, |tables| - 1, tables, ch) + ([Word(ch.andWord)] + after)
    ensures GoesOn(on, all) && GoesOn(before, chs) && PairsWritten(toks, all, |on|, tables, chs, end)
  {
    GoesOnFrom(on, p, all);
    GoesOnFrom(before, ch, chs);
    OnePairMore(toks, after, all, |on|, tables, chs, end);
  }

  lemma AfterAnd(toks: seq<Token>) returns (after: seq<Token>)
    requires Lexed(toks) && Peek(toks).Success? && IsWord(Peek(toks).value, "AND")
    ensures after == Rest(toks) && toks == [Word(AndAt(toks))] + after && Says(AndAt(toks), "AND") && Lexed(after)
  {
    LexedRest(toks);
    after := toks[1..];
  }

  lemma PrefixAt<T>(a: seq<T>, x: T, all: seq<T>)
    requires a + [x] <= all
    ensures |a| < |all| && all[|a|] == x && a < all
  {
    assert all[|a|] == (a + [x])[|a|];
    assert (a + [x])[..|a|] == a;
  }

  lemma PairsGoOn(toks: seq<Token>, tables: seq<JoinTable>, on: seq<JoinPair>, opts: Options)
    requires tables != [] && |on| < MAX_PAIRS && Pairs(toks, tables, on, opts).Success?
    ensures Pair(toks, tables, opts).Success? && Peek(Pair(toks, tables, opts).value.1).Success?
    ensures var (p, rest) := Pair(toks, tables, opts).value;
            Pairs(toks, tables, on, opts)
            == if !IsWord(Peek(rest).value, "AND") then Success((on + [p], rest))
               else if |on| + 1 < MAX_PAIRS then Pairs(Rest(rest), tables, on + [p], opts)
               else Failure(TooManyPairs)
  {
  }

  lemma PairIsSound(toks: seq<Token>, tables: seq<JoinTable>, on: seq<JoinPair>, opts: Options)
    requires Lexed(toks) && tables != [] && PairsWF(on, |tables| - 1) && Pair(toks, tables, opts).Success?
    ensures PairsWF(on + [Pair(toks, tables, opts).value.0], |tables| - 1)
  {
    LexedNamed(toks);
    Soundness.PairSound(toks, tables, opts);
  }

  lemma OnePairMore(
    toks: seq<Token>, after: seq<Token>, all: seq<JoinPair>, k: nat, tables: seq<JoinTable>, chs: seq<PairChoice>,
    end: seq<Token>)
    requires k + 1 < |all| && PairsWritten(after, all, k + 1, tables, chs, end) && all[k].left.join < |tables|
    requires toks == PairSpelled(all[k], |tables| - 1, tables, chs[k]) + ([Word(chs[k].andWord)] + after)
    ensures PairsWritten(toks, all, k, tables, chs, end)
  {
    var more := PairsSpelled(all, k + 1, |tables| - 1, tables, chs);
    Around(PairSpelled(all[k], |tables| - 1, tables, chs[k]), [Word(chs[k].andWord)], more, end);
  }

  lemma PairLast(
    toks: seq<Token>, on: seq<JoinPair>, p: JoinPair, tables: seq<JoinTable>, before: seq<PairChoice>, ch: PairChoice,
    rest: seq<Token>)
    requires |before| == |on| && tables != [] && PairsWF(on + [p], |tables| - 1) && p.left.join < |tables|
    requires toks == PairSpelled(p, |tables| - 1, tables, ch) + rest
    ensures GoesOn(on, on + [p]) && GoesOn(before, before + [ch])
    ensures PairsWritten(toks, on + [p], |on|, tables, before + [ch], rest)
  {
    assert (on + [p])[|on|] == p && (before + [ch])[|on|] == ch;
    PairsSplit(on + [p], |on|, |tables| - 1, tables, before + [ch], rest);
  }

  // ---- Clauses ----

  lemma KindOnly(toks: seq<Token>) returns (ch: KindChoice)
    requires Lexed(toks) && JoinKind(toks).Success?
    ensures var (kind, rest) := JoinKind(toks).value;
            KindFits(kind, ch) && toks == KindSpelled(ch) + rest && Lexed(rest)
  {
    var first := toks[0].text;
    assert toks == [Word(first)] + toks[1..];
    LexedRest(toks);
    if IsWord(toks[0], "INNER") {
      var join := WordOnly(toks[1..], "JOIN");
      ch := WithInner(first, join);
      TwoFirst(Word(first), Word(join), JoinKind(toks).value.1);
    } else if IsWord(toks[0], "LEFT") {
      ch := LeftOnly(toks);
    } else {
      ch := Bare(first);
    }
  }

  lemma LeftOnly(toks: seq<Token>) returns (ch: KindChoice)
    requires Lexed(toks) && JoinKind(toks).Success? && IsWord(toks[0], "LEFT")
    ensures var (kind, rest) := JoinKind(toks).value;
            KindFits(kind, ch) && toks == KindSpelled(ch) + rest && Lexed(rest)
  {
    var first, after := toks[0].text, toks[1..];
    assert toks == [Word(first)] + after;
    LexedRest(toks);
    if after != [] && IsWord(after[0], "OUTER") {
      LexedRest(after);
      var join := WordOnly(after[1..], "JOIN");
      ch := WithOuter(first, after[0].text, join);
      assert after == [Word(after[0].text)] + after[1..];
      ThreeFirst(Word(first), Word(after[0].text), Word(join), JoinKind(toks).value.1);
    } else {
      var join := WordOnly(after, "JOIN");
      ch := WithLeft(first, join);
      TwoFirst(Word(first), Word(join), JoinKind(toks).value.1);
    }
  }

  lemma ClauseOnly(toks: seq<Token>, tables: seq<JoinTable>, opts: Options) returns (ch: ClauseChoice)
    requires Lexed(toks) && tables != [] && Clause(toks, tables, opts).Success?
    ensures var (tables', j, rest) := Clause(toks, tables, opts).value;
            && |tables'| == |tables| + 1 && ClauseFits(j, ch) && PairsWF(j.on, |tables|) && Lexed(rest)
            && toks == ClauseSpelled(j, |tables|, tables', ch) + rest
  {
    var kind := KindOnly(toks);
    var (type_, afterKind) := JoinKind(toks).value;
    var table := TableOnly(afterKind, tables, opts);
    var (tables', afterTable) := TableRef(afterKind, tables, opts).value;
    var on := WordOnly(afterTable, "ON");
    var afterOn := ExpectWord(afterTable, "ON").value;
    var pairs := PairsOnly(afterOn, tables', [], opts, []);
    var (all, rest) := Pairs(afterOn, tables', [], opts).value;
    ch := ClauseChoice(kind, table, on, pairs);
    ClauseSplit(
      KindSpelled(kind), TableSpelled(tables'[|tables|], table), [Word(on)],
      PairsSpelled(all, 0, |tables|, tables', pairs), rest);
  }

  /** A clause is written the same with the tables that come after it. */
  lemma ClauseEarlier(j: JoinClause, position: nat, tables: seq<JoinTable>, ch: ClauseChoice)
    requires position < |tables| && PairsWF(j.on, position) && |ch.pairs| == |j.on|
    ensures ClauseSpelled(j, position, tables, ch) == ClauseSpelled(j, position, tables[..position + 1], ch)
  {
    EarlierTables(j.on, 0, position, tables, ch.pairs);
  }

  /** `ch` fits `def` up to clause `i`. */
  predicate FitsBefore(def: JoinDef, ch: Choices, i: nat) {
    && i <= |def.joins| && |ch.clauses| == i
    && SelectFits(def.columns, ch.select) && Says(ch.fromWord, "FROM") && TableFits(ch.base)
    && forall k :: 0 <= k < i ==> ClauseFits(def.joins[k], ch.clauses[k])
  }

  /** `ch` with more clauses, and `;` or not. */
  predicate Extends(all: Choices, ch: Choices) {
    all.select == ch.select && all.fromWord == ch.fromWord && all.base == ch.base && ch.clauses <= all.clauses
  }

  /** `ch` fits and writes the clauses of `def` from `i` on as `toks`. */
  ghost predicate ClausesWritten(toks: seq<Token>, i: nat, def: JoinDef, ch: Choices) {
    WellFormed(def) && Fits(def, ch) && i <= |def.joins| && toks == ClausesSpelled(def, i, ch)
  }

  /** Reading `toks` after the first `i` clauses ends with all of `def`. */
  ghost predicate Leads(toks: seq<Token>, i: nat, def: JoinDef, opts: Options) {
    && WellFormed(def) && i <= |def.joins|
    && var r := Clauses(toks, def.tables[..i + 1], def.joins[..i], opts);
       && r.Success? && r.value.0 == def.tables && r.value.1 == def.joins
       && (r.value.2 == Ending(false) || r.value.2 == Ending(true))
  }

  lemma {:induction false} ClausesOnly(toks: seq<Token>, i: nat, def: JoinDef, ch: Choices, opts: Options)
    returns (all: Choices)
    requires Lexed(toks) && FitsBefore(def, ch, i) && Leads(toks, i, def, opts)
    ensures Extends(all, ch) && ClausesWritten(toks, i, def, all)
    decreases |def.joins| - i
  {
    if EndsClauses(toks) {
      EndsHere(toks, i, def, opts);
      all := LastClause(toks, i, def, ch);
    } else {
      NextClause(toks, i, def, opts);
      var clause := ClauseOnly(toks, def.tables[..i + 1], opts);
      var rest := Clause(toks, def.tables[..i + 1], opts).value.2;
      FitsOneMore(def, ch, i, clause);
      all := ClausesOnly(rest, i + 1, def, ch.(clauses := ch.clauses + [clause]), opts);
      NextWritten(toks, i, def, rest, clause, ch, all);
    }
  }

  lemma FitsOneMore(def: JoinDef, ch: Choices, i: nat, clause: ClauseChoice)
    requires FitsBefore(def, ch, i) && i < |def.joins| && ClauseFits(def.joins[i], clause)
    ensures FitsBefore(def, ch.(clauses := ch.clauses + [clause]), i + 1)
  {
  }

  predicate EndsClauses(toks: seq<Token>) {
    var t := Peek(toks); t.Success? && (t.value == End || IsSymbol(t.value, ';'))
  }

  lemma EndsHere(toks: seq<Token>, i: nat, def: JoinDef, opts: Options)
    requires Leads(toks, i, def, opts) && EndsClauses(toks)
    ensures |def.joins[..i]| == |def.joins| && (toks == Ending(false) || toks == Ending(true))
  {
  }

  lemma LastClause(toks: seq<Token>, i: nat, def: JoinDef, ch: Choices) returns (all: Choices)
    requires WellFormed(def) && FitsBefore(def, ch, i) && |def.joins[..i]| == |def.joins|
    requires toks == Ending(false) || toks == Ending(true)
    ensures Extends(all, ch) && ClausesWritten(toks, i, def, all)
  {
    all := ch.(semicolon := toks == Ending(true));
    assert Ending(true)[0] != Ending(false)[0];
  }

  /** The clause read is the definition's next. */
  lemma NextClause(toks: seq<Token>, i: nat, def: JoinDef, opts: Options)
    requires Leads(toks, i, def, opts) && !EndsClauses(toks)
    ensures Clause(toks, def.tables[..i + 1], opts).Success?
    ensures var (tables', j, rest) := Clause(toks, def.tables[..i + 1], opts).value;
            && i < |def.joins| && j == def.joins[i] && tables' == def.tables[..i + 2]
            && Leads(rest, i + 1, def, opts)
  {
    var tables, joins := def.tables[..i + 1], def.joins[..i];
    var (tables', j, rest) := Clause(toks, tables, opts).value;
    Catalogs.ClausesKeep(rest, tables', joins + [j], opts);
    NextClauseIs(def, i, tables', joins, j);
  }

  lemma NextWritten(
    toks: seq<Token>, i: nat, def: JoinDef, rest: seq<Token>, clause: ClauseChoice, ch: Choices, all: Choices)
    requires i < |def.joins| && |ch.clauses| == i && ClausesWritten(rest, i + 1, def, all)
    requires PairsWF(def.joins[i].on, i + 1) && ClauseFits(def.joins[i], clause)
    requires Extends(all, ch.(clauses := ch.clauses + [clause]))
    requires toks == ClauseSpelled(def.joins[i], i + 1, def.tables[..i + 2], clause) + rest
    ensures Extends(all, ch) && ClausesWritten(toks, i, def, all)
  {
    PrefixAt(ch.clauses, clause, all.clauses);
    ClauseEarlier(def.joins[i], i + 1, def.tables, clause);
    ClausesNext(def, i, all);
  }

  lemma NextClauseIs(def: JoinDef, i: nat, tables': seq<JoinTable>, joins: seq<JoinClause>, j: JoinClause)
    requires joins + [j] <= def.joins && tables' <= def.tables && |tables'| == i + 2 && |joins| == i
    requires joins == def.joins[..i]
    ensures i < |def.joins| && j == def.joins[i] && def.joins[..i + 1] == joins + [j] && tables' == def.tables[..i + 2]
  {
    assert (joins + [j])[i] == j;
  }

  // ---- Select list ----

  lemma ItemOnly(toks: seq<Token>) returns (ch: RefChoice)
    requires Lexed(toks) && SelectItem(toks).Success?
    ensures var (item, rest) := SelectItem(toks).value;
            && toks == ItemWritten(item, ch) + rest && Lexed(rest)
  {
    var a := NameOnly(toks);
    var (qualifier, afterName) := NameToken(toks).value;
    var afterDot := afterName[1..];
    LexedRest(afterName);
    assert afterName == [Symbol('.')] + afterDot;
    if IsSymbol(Peek(afterDot).value, '*') {
      ch := RefChoice(a, false);
      LexedRest(afterDot);
      assert afterDot == [Symbol('*')] + afterDot[1..];
      ThreeFirst(NameSpelled(qualifier, a), Symbol('.'), Symbol('*'), afterDot[1..]);
    } else {
      var b := NameOnly(afterDot);
      ch := RefChoice(a, b);
      var (column, rest) := NameToken(afterDot).value;
      ThreeFirst(NameSpelled(qualifier, a), Symbol('.'), NameSpelled(column, b), rest);
    }
  }

  /** An item as written, before its qualifier is resolved. */
  function ItemWritten(item: Item, ch: RefChoice): seq<Token> {
    if item.column.None? then [NameSpelled(item.qualifier, ch.tableQuoted), Symbol('.'), Symbol('*')]
    else RefSpelled(item.qualifier, item.column.value, ch)
  }

  /** The items from `k` on, as written. */
  function ItemsWritten(items: seq<Item>, k: nat, chs: seq<RefChoice>): seq<Token>
    requires k <= |items| == |chs|
    decreases |items| - k
  {
    if k == |items| then []
    else
      ItemWritten(items[k], chs[k])
      + ((if k + 1 < |items| then [Symbol(',')] else []) + ItemsWritten(items, k + 1, chs))
  }

  lemma WrittenSplit(items: seq<Item>, k: nat, chs: seq<RefChoice>, rest: seq<Token>)
    requires k < |items| == |chs|
    ensures var first, more := ItemWritten(items[k], chs[k]), ItemsWritten(items, k + 1, chs) + rest;
            ItemsWritten(items, k, chs) + rest == first + if k + 1 < |items| then [Symbol(',')] + more else rest
  {
    Around(ItemWritten(items[k], chs[k]), [Symbol(',')], ItemsWritten(items, k + 1, chs), rest);
  }

  lemma {:induction false} ItemsOnly(toks: seq<Token>, items: seq<Item>, before: seq<RefChoice>)
    returns (chs: seq<RefChoice>)
    requires Lexed(toks) && |before| == |items| && SelectItems(toks, items).Success?
    ensures var (all, rest) := SelectItems(toks, items).value;
            && items < all && |chs| == |all| && before <= chs && Lexed(rest)
            && toks == ItemsWritten(all, |items|, chs) + rest
    decreases |toks|
  {
    var (item, rest) := SelectItem(toks).value;
    var ch := ItemOnly(toks);
    if IsSymbol(Peek(rest).value, ',') {
      LexedRest(rest);
      chs := ItemsOnly(rest[1..], items + [item], before + [ch]);
      var (all, end) := SelectItems(rest[1..], items + [item]).value;
      PrefixAt(items, item, all);
      PrefixAt(before, ch, chs);
      assert rest == [Symbol(',')] + rest[1..];
      OneItemMore(toks, rest[1..], all, |items|, chs, end);
    } else {
      chs := before + [ch];
      PrefixAt(items, item, items + [item]);
      PrefixAt(before, ch, chs);
      WrittenSplit(items + [item], |items|, chs, rest);
    }
  }

  lemma OneItemMore(
    toks: seq<Token>, after: seq<Token>, all: seq<Item>, k: nat, chs: seq<RefChoice>, end: seq<Token>)
    requires k + 1 < |all| == |chs| && after == ItemsWritten(all, k + 1, chs) + end
    requires toks == ItemWritten(all[k], chs[k]) + ([Symbol(',')] + after)
    ensures toks == ItemsWritten(all, k, chs) + end
  {
    WrittenSplit(all, k, chs, end);
  }

  /** Resolving the items gives columns that are written as the items were. */
  lemma {:induction false} ColumnsAreItems(
    items: seq<Item>, columns: seq<JoinColumn>, tables: seq<JoinTable>, opts: Options, i: nat)
    requires Columns(items, columns, tables, opts).Success? && i < |items|
    ensures var all := Columns(items, columns, tables, opts).value;
            && |all| == |columns| + |items| && columns <= all
            && all[|columns| + i].join < |tables| && ItemOf(all[|columns| + i], tables) == items[i]
    decreases |items|
  {
    var c := ColumnOf(items[0], Position(tables, items[0].qualifier).value);
    Catalogs.ColumnsKeep(items[1..], columns + [c], tables, opts);
    var all := Columns(items, columns, tables, opts).value;
    if i > 0 {
      ColumnsAreItems(items[1..], columns + [c], tables, opts, i - 1);
    } else {
      assert all[|columns|] == (columns + [c])[|columns|];
      if |items| > 1 {
        ColumnsAreItems(items[1..], columns + [c], tables, opts, 0);
      }
    }
  }

  lemma OneIsSpelled(item: Item, c: JoinColumn, tables: seq<JoinTable>, ch: RefChoice)
    requires c.join < |tables| && ItemOf(c, tables) == item
    ensures ItemWritten(item, ch) == ItemSpelled(c, tables, ch)
  {
  }

  lemma {:induction false} WrittenIsSpelled(
    items: seq<Item>, cs: seq<JoinColumn>, k: nat, tables: seq<JoinTable>, chs: seq<RefChoice>)
    requires ColumnsWF(cs, |tables|) && k <= |cs| == |items| == |chs|
    requires forall i :: 0 <= i < |cs| ==> ItemOf(cs[i], tables) == items[i]
    ensures ItemsWritten(items, k, chs) == ItemsSpelled(cs, k, tables, chs)
    decreases |cs| - k
  {
    if k < |cs| {
      WrittenIsSpelled(items, cs, k + 1, tables, chs);
      OneIsSpelled(items[k], cs[k], tables, chs[k]);
    }
  }

  /** `toks` are a select part asking for `items`, written by `ch`, and then `rest`. */
  ghost predicate SelectWritten(toks: seq<Token>, items: Option<seq<Item>>, ch: SelectChoice, rest: seq<Token>) {
    match ch
    case Absent => items.None? && toks == rest
    case Star(select) => items.None? && Says(select, "SELECT") && toks == [Word(select), Symbol('*')] + rest
    case Listing(select, chs) =>
      && items.Some? && Says(select, "SELECT") && |chs| == |items.value|
      && toks == [Word(select)] + (ItemsWritten(items.value, 0, chs) + rest)
  }

  lemma SelectOnly(toks: seq<Token>) returns (ch: SelectChoice)
    requires Lexed(toks) && Select(toks).Success?
    ensures SelectWritten(toks, Select(toks).value.0, ch, Select(toks).value.1) && Lexed(Select(toks).value.1)
  {
    if !IsWord(toks[0], "SELECT") {
      ch := Absent;
    } else if IsSymbol(Peek(toks[1..]).value, '*') {
      ch := StarOnly(toks);
    } else {
      LexedRest(toks);
      var chs := ItemsOnly(toks[1..], [], []);
      ch := Listing(toks[0].text, chs);
      assert toks == [Word(toks[0].text)] + toks[1..];
    }
  }

  lemma StarOnly(toks: seq<Token>) returns (ch: SelectChoice)
    requires Lexed(toks) && Select(toks).Success? && IsWord(toks[0], "SELECT") && |toks| > 1 && toks[1] == Symbol('*')
    ensures SelectWritten(toks, Select(toks).value.0, ch, Select(toks).value.1) && Lexed(Select(toks).value.1)
  {
    ch := Star(toks[0].text);
    LexedRest(toks);
    LexedRest(toks[1..]);
    assert toks[1..][1..] == toks[2..];
    assert toks == [Word(toks[0].text), Symbol('*')] + toks[2..];
  }

  // ---- The whole text ----

  /** What follows the last clause of an accepted text. */
  lemma EndingOnly(toks: seq<Token>)
    requires Lexed(toks) && Peek(toks).Success?
    requires Peek(if IsSymbol(toks[0], ';') then Rest(toks) else toks) == Success(End)
    ensures toks == Ending(toks[0] == Symbol(';'))
  {
    if toks[0] == Symbol(';') {
      LexedRest(toks);
      assert toks == [toks[0]] + toks[1..];
      LastIsAll(toks[1..]);
    } else {
      LastIsAll(toks);
      assert Ending(false) == [End];
    }
  }

  lemma LastIsAll(toks: seq<Token>)
    requires Lexed(toks) && IsLast(toks[0])
    ensures toks == [toks[0]]
  {
  }

  /** What an accepted statement is made of. */
  datatype Parts = Parts(
    items: Option<seq<Item>>, afterSelect: seq<Token>, afterFrom: seq<Token>, base: seq<JoinTable>,
    afterBase: seq<Token>, afterJoins: seq<Token>)

  ghost predicate Splits(toks: seq<Token>, def: JoinDef, p: Parts, opts: Options) {
    && Select(toks) == Success((p.items, p.afterSelect))
    && ExpectWord(p.afterSelect, "FROM") == Success(p.afterFrom)
    && TableRef(p.afterFrom, [], opts) == Success((p.base, p.afterBase)) && |p.base| == 1
    && Clauses(p.afterBase, p.base, [], opts) == Success((def.tables, def.joins, p.afterJoins))
    && Finish(p.items, def.tables, def.joins, p.afterJoins, opts) == Success(def)
  }

  lemma StatementSplits(toks: seq<Token>, opts: Options) returns (p: Parts)
    requires Statement(toks, opts).Success?
    ensures Splits(toks, Statement(toks, opts).value, p, opts)
  {
    var (items, afterSelect) := Select(toks).value;
    var afterFrom := ExpectWord(afterSelect, "FROM").value;
    var (base, afterBase) := TableRef(afterFrom, [], opts).value;
    var (tables, joins, afterJoins) := Clauses(afterBase, base, [], opts).value;
    p := Parts(items, afterSelect, afterFrom, base, afterBase, afterJoins);
    FinishIs(items, tables, joins, afterJoins, opts);
  }

  lemma FinishIs(
    items: Option<seq<Item>>, tables: seq<JoinTable>, joins: seq<JoinClause>, toks: seq<Token>, opts: Options)
    requires Finish(items, tables, joins, toks, opts).Success?
    ensures var def := Finish(items, tables, joins, toks, opts).value; def.tables == tables && def.joins == joins
  {
  }

  lemma FinishColumns(
    items: Option<seq<Item>>, tables: seq<JoinTable>, joins: seq<JoinClause>, toks: seq<Token>, def: JoinDef,
    opts: Options)
    requires Finish(items, tables, joins, toks, opts) == Success(def)
    ensures items.Some? <==> def.columns.Some?
    ensures items.Some? ==> Columns(items.value, [], def.tables, opts) == Success(def.columns.value)
  {
  }

  /** The select part of an accepted text is written as its columns are. */
  lemma SelectIs(toks: seq<Token>, def: JoinDef, p: Parts, opts: Options) returns (ch: SelectChoice)
    requires Lexed(toks) && WellFormed(def) && Splits(toks, def, p, opts)
    ensures SelectFits(def.columns, ch) && Lexed(p.afterSelect)
    ensures toks == SelectSpelled(def.columns, def.tables, ch) + p.afterSelect
  {
    ch := SelectOnly(toks);
    FinishColumns(p.items, def.tables, def.joins, p.afterJoins, def, opts);
    SelectColumns(toks, p.items, def, ch, p.afterSelect, opts);
  }

  lemma SelectColumns(
    toks: seq<Token>, items: Option<seq<Item>>, def: JoinDef, ch: SelectChoice, rest: seq<Token>, opts: Options)
    requires WellFormed(def) && SelectWritten(toks, items, ch, rest) && (items.Some? <==> def.columns.Some?)
    requires items.Some? ==> Columns(items.value, [], def.tables, opts) == Success(def.columns.value)
    ensures SelectFits(def.columns, ch) && toks == SelectSpelled(def.columns, def.tables, ch) + rest
  {
    match ch
    case Absent => assert [] + toks == toks;
    case Star(select) =>
    case Listing(select, chs) =>
      ListIs(items.value, def, chs, opts);
      ConcatAssoc([Word(select)], ItemsWritten(items.value, 0, chs), rest);
  }

  lemma ListIs(items: seq<Item>, def: JoinDef, chs: seq<RefChoice>, opts: Options)
    requires WellFormed(def) && |chs| == |items| && def.columns.Some?
    requires Columns(items, [], def.tables, opts) == Success(def.columns.value)
    ensures |def.columns.value| == |items|
    ensures ItemsWritten(items, 0, chs) == ItemsSpelled(def.columns.value, 0, def.tables, chs)
  {
    var cs := def.columns.value;
    ColumnsCount(items, [], def.tables, opts);
    forall i | 0 <= i < |items|
      ensures cs[i].join < |def.tables| && ItemOf(cs[i], def.tables) == items[i]
    {
      ColumnsAreItems(items, [], def.tables, opts, i);
    }
    WrittenIsSpelled(items, cs, 0, def.tables, chs);
  }

  lemma {:induction false} ColumnsCount(
    items: seq<Item>, columns: seq<JoinColumn>, tables: seq<JoinTable>, opts: Options)
    requires Columns(items, columns, tables, opts).Success?
    ensures |Columns(items, columns, tables, opts).value| == |columns| + |items|
    decreases |items|
  {
    if items != [] {
      var c := ColumnOf(items[0], Position(tables, items[0].qualifier).value);
      ColumnsCount(items[1..], columns + [c], tables, opts);
    }
  }

  /** The last tokens read are those that end the text. */
  lemma {:induction false} ClausesLeave(
    toks: seq<Token>, tables: seq<JoinTable>, joins: seq<JoinClause>, opts: Options)
    requires Lexed(toks) && 1 <= |tables| <= MAX_TABLES && Clauses(toks, tables, joins, opts).Success?
    ensures Lexed(Clauses(toks, tables, joins, opts).value.2)
    decreases MAX_TABLES - |tables|
  {
    var t := Peek(toks).value;
    if t != End && !IsSymbol(t, ';') {
      var clause := ClauseOnly(toks, tables, opts);
      var (tables', j, rest) := Clause(toks, tables, opts).value;
      ClausesLeave(rest, tables', joins + [j], opts);
    }
  }

  lemma EndingIs(toks: seq<Token>, def: JoinDef, p: Parts, opts: Options)
    requires Lexed(p.afterJoins) && Splits(toks, def, p, opts)
    ensures p.afterJoins == Ending(false) || p.afterJoins == Ending(true)
  {
    EndingOnly(p.afterJoins);
  }

  /** Every accepted list of tokens is a spelling of the definition it is read as. */
  lemma StatementIsSpelled(toks: seq<Token>, def: JoinDef, opts: Options) returns (ch: Choices)
    requires Lexed(toks) && WellFormed(def) && Statement(toks, opts) == Success(def)
    ensures Fits(def, ch) && toks == Spelled(def, ch)
  {
    var p := StatementSplits(toks, opts);
    var select := SelectIs(toks, def, p, opts);
    var from := WordOnly(p.afterSelect, "FROM");
    var base := TableOnly(p.afterFrom, [], opts);
    ClausesLeave(p.afterBase, p.base, [], opts);
    EndingIs(toks, def, p, opts);
    BaseIs(p, def, opts);
    ch := ClausesOnly(p.afterBase, 0, def, Choices(select, from, base, [], false), opts);
    PutTogether(toks, p.afterSelect, p.afterFrom, p.afterBase, def, ch);
  }

  lemma PutTogether(
    toks: seq<Token>, afterSelect: seq<Token>, afterFrom: seq<Token>, afterBase: seq<Token>, def: JoinDef, ch: Choices)
    requires ClausesWritten(afterBase, 0, def, ch)
    requires toks == SelectSpelled(def.columns, def.tables, ch.select) + afterSelect
    requires afterSelect == [Word(ch.fromWord)] + afterFrom
    requires afterFrom == TableSpelled(def.tables[0], ch.base) + afterBase
    ensures toks == Spelled(def, ch)
  {
  }

  lemma BaseIs(p: Parts, def: JoinDef, opts: Options)
    requires |p.base| == 1 && WellFormed(def)
    requires Clauses(p.afterBase, p.base, [], opts) == Success((def.tables, def.joins, p.afterJoins))
    requires p.afterJoins == Ending(false) || p.afterJoins == Ending(true)
    ensures p.base[0] == def.tables[0] && Leads(p.afterBase, 0, def, opts)
  {
    Catalogs.ClausesKeep(p.afterBase, p.base, [], opts);
    assert p.base == def.tables[..1] && def.joins[..0] == [];
  }
}

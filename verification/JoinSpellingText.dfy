/** The spellings of a join as text: tokens set apart by spaces, and nothing else. */
module JoinSpellingText {
  import opened Outcomes
  import opened Text
  import opened JoinTypes
  import opened JoinGrammar
  import opened JoinSpelling
  import Printer = JoinPrinter
  import Reads = JoinSpellingRead
  import Only = JoinSpellingOnly
  import Catalogs = JoinCatalog
  import Agreement = JoinScanAgreement

  // ---- Text from tokens ----

  /** The tokens the grammar reads, but for the end of the text. */
  predicate Plain(t: Token) {
    match t
    case Word(w) => IsBareName(w)
    case Quoted(name) => name != ""
    case Symbol(c) => IsSymbolChar(c)
    case _ => false
  }

  predicate AllPlain(toks: seq<Token>) {
    forall i :: 0 <= i < |toks| ==> Plain(toks[i])
  }

  function TokenText(t: Token): string {
    match t
    case Word(w) => w
    case Quoted(name) => Enclosed(name, '"')
    case Symbol(c) => [c]
    case _ => ""
  }

  predicate Blank(s: string) {
    forall i :: 0 <= i < |s| ==> IsSpace(s[i])
  }

  /** `t` ends where `rest` starts. */
  predicate Follows(t: Token, rest: string) {
    rest == ""
    || match t
       case Word(_) => !IsNameChar(rest[0])
       case Quoted(_) => rest[0] != '"'
       case Symbol(c) => c == '=' ==> !OperatorChar.Has(rest[0])
       case _ => true
  }

  /** The tokens as text, each after its gap. */
  function Written(toks: seq<Token>, gaps: seq<string>): string
    requires |gaps| == |toks|
  {
    if toks == [] then "" else gaps[0] + (TokenText(toks[0]) + Written(toks[1..], gaps[1..]))
  }

  /** The gaps are blank and keep each token from what comes after it; `rest` comes after the last. */
  predicate Apart(toks: seq<Token>, gaps: seq<string>, rest: string)
    requires |gaps| == |toks|
  {
    toks == []
    || (Blank(gaps[0]) && Follows(toks[0], Written(toks[1..], gaps[1..]) + rest) && Apart(toks[1..], gaps[1..], rest))
  }

  // ---- Reading what is written ----

  /** `read` passes over blanks and reads a token that ends in time as one `item` of it. */
  ghost predicate ReadsTokens<T(!new)>(read: string -> seq<T>, item: Token -> T) {
    && (forall b, rest :: Blank(b) ==> read(b + rest) == read(rest))
    && (forall t, rest :: Plain(t) && Follows(t, rest) ==> read(TokenText(t) + rest) == [item(t)] + read(rest))
  }

  function Items<T>(item: Token -> T, toks: seq<Token>): seq<T> {
    if toks == [] then [] else [item(toks[0])] + Items(item, toks[1..])
  }

  lemma WrittenFirst(gap: string, first: string, more: string, rest: string)
    ensures gap + (first + more) + rest == gap + (first + (more + rest))
  {
  }

  lemma {:induction false} WrittenReads<T(!new)>(
    read: string -> seq<T>, item: Token -> T, toks: seq<Token>, gaps: seq<string>, rest: string)
    requires ReadsTokens(read, item) && AllPlain(toks) && |gaps| == |toks| && Apart(toks, gaps, rest)
    ensures read(Written(toks, gaps) + rest) == Items(item, toks) + read(rest)
  {
    if toks == [] {
      assert "" + rest == rest;
      assert [] + read(rest) == read(rest);
    } else {
      var more := Written(toks[1..], gaps[1..]);
      WrittenReads(read, item, toks[1..], gaps[1..], rest);
      WrittenFirst(gaps[0], TokenText(toks[0]), more, rest);
      ConcatAssoc([item(toks[0])], Items(item, toks[1..]), read(rest));
    }
  }

  lemma WordLexes(w: string, rest: string)
    requires IsBareName(w) && Follows(Word(w), rest)
    ensures LexToken(w + rest) == (Word(w), |w|)
  {
    var s := w + rest;
    assert s[0] == w[0];
    assert s[1..] == w[1..] + rest;
    SpanIs(NameChar, s[1..], |w| - 1);
    assert s[..|w|] == w;
  }

  lemma EnclosedRest(name: string, rest: string)
    ensures var s := Enclosed(name, '"') + rest; s[1..] == Doubled(name, '"') + ['"'] + rest && s[0] == '"'
  {
  }

  lemma QuotedLexes(name: string, rest: string)
    requires name != "" && Follows(Quoted(name), rest)
    ensures LexToken(Enclosed(name, '"') + rest) == (Quoted(name), |Enclosed(name, '"')|)
  {
    var s := Enclosed(name, '"') + rest;
    EnclosedRest(name, rest);
    ScanDoubled(name, '"', rest);
  }

  lemma SymbolLexes(c: char, rest: string)
    requires IsSymbolChar(c) && Follows(Symbol(c), rest)
    ensures LexToken([c] + rest) == (Symbol(c), 1)
  {
    var s := [c] + rest;
    assert s[0] == c && (|s| > 1 ==> s[1] == rest[0]);
  }

  lemma TokenLexes(t: Token, rest: string)
    requires Plain(t) && Follows(t, rest)
    ensures TokenText(t) != "" && !IsSpace(TokenText(t)[0])
    ensures LexToken(TokenText(t) + rest) == (t, |TokenText(t)|)
  {
    match t
    case Word(w) => WordLexes(w, rest);
    case Quoted(name) => QuotedLexes(name, rest);
    case Symbol(c) => SymbolLexes(c, rest);
  }

  lemma BlankSpan(b: string, rest: string)
    requires Blank(b)
    ensures Span(Space, b + rest) == |b| + Span(Space, rest)
  {
    var n := |b| + Span(Space, rest);
    assert forall i :: |b| <= i < |b + rest| ==> (b + rest)[i] == rest[i - |b|];
    SpanIs(Space, b + rest, n);
  }

  /** What the first token is read from. */
  function PastSpace(s: string): string {
    s[Span(Space, s)..]
  }

  lemma SamePast(s: string, s': string)
    requires PastSpace(s) == PastSpace(s')
    ensures Tokens(s) == Tokens(s')
  {
  }

  lemma BlankPassed(b: string, rest: string)
    requires Blank(b)
    ensures PastSpace(b + rest) == PastSpace(rest)
  {
    BlankSpan(b, rest);
  }

  lemma TokensAfterBlank(b: string, rest: string)
    requires Blank(b)
    ensures Tokens(b + rest) == Tokens(rest)
  {
    BlankPassed(b, rest);
    SamePast(b + rest, rest);
  }

  lemma TokensAfterToken(t: Token, rest: string)
    requires Plain(t) && Follows(t, rest)
    ensures Tokens(TokenText(t) + rest) == [t] + Tokens(rest)
  {
    TokenLexes(t, rest);
    Printer.TokensStep(TokenText(t) + rest);
    assert (TokenText(t) + rest)[|TokenText(t)|..] == rest;
  }

  lemma TokensReadsTokens(item: Token -> Token)
    requires forall t :: item(t) == t
    ensures ReadsTokens(Tokens, item)
  {
    forall b, rest | Blank(b)
      ensures Tokens(b + rest) == Tokens(rest)
    {
      TokensAfterBlank(b, rest);
    }
    forall t, rest | Plain(t) && Follows(t, rest)
      ensures Tokens(TokenText(t) + rest) == [item(t)] + Tokens(rest)
    {
      TokensAfterToken(t, rest);
    }
  }

  lemma {:induction false} ItemsAreTokens(item: Token -> Token, toks: seq<Token>)
    requires forall t :: item(t) == t
    ensures Items(item, toks) == toks
  {
    if toks != [] {
      ItemsAreTokens(item, toks[1..]);
    }
  }

  /** Plain tokens set apart by blanks are read as themselves. */
  lemma WrittenTokens(toks: seq<Token>, gaps: seq<string>, end: string)
    requires AllPlain(toks) && |gaps| == |toks| && Apart(toks, gaps, end) && Blank(end)
    ensures Tokens(Written(toks, gaps) + end) == toks + [End]
  {
    var item := (t: Token) => t;
    TokensReadsTokens(item);
    WrittenReads(Tokens, item, toks, gaps, end);
    ItemsAreTokens(item, toks);
    TokensAfterBlank(end, "");
    assert end + "" == end;
  }

  // ---- Every text the lexer reads is written so ----

  lemma LexedIs(r: string)
    requires r != "" && (LexToken(r).0.Word? || LexToken(r).0.Quoted? || LexToken(r).0.Symbol?)
    ensures var (tok, n) := LexToken(r); Plain(tok) && r[..n] == TokenText(tok) && Follows(tok, r[n..])
  {
    match LexToken(r).0
    case Word(_) => LexedWord(r);
    case Quoted(name) => LexedQuoted(r);
    case Symbol(c) =>
    case _ =>
  }

  lemma LexedWord(r: string)
    requires r != "" && LexToken(r).0.Word?
    ensures var (tok, n) := LexToken(r); IsBareName(tok.text) && r[..n] == tok.text && Follows(tok, r[n..])
  {
    var n := LexToken(r).1;
    assert forall i :: 1 <= i < |r| ==> r[i] == r[1..][i - 1];
    assert n < |r| ==> r[n..][0] == r[n];
  }

  lemma LexedQuoted(r: string)
    requires r != "" && LexToken(r).0.Quoted?
    ensures var (tok, n) := LexToken(r); r[..n] == TokenText(tok) && tok.text != "" && Follows(tok, r[n..])
  {
    var (tok, n) := LexToken(r);
    ScannedIsDoubled(r[1..], '"');
    assert r[..n] == ['"'] + r[1..][..n - 1];
    assert n < |r| ==> r[n..][0] == r[1..][n - 1];
  }

  /** How a text is laid out: what stands before each token and what ends it. */
  datatype Spacing = Spacing(gaps: seq<string>, end: string)

  /** `text` is written from `toks` and has no other tokens. */
  predicate Lays(text: string, toks: seq<Token>, sp: Spacing) {
    && |sp.gaps| == |toks| && Apart(toks, sp.gaps, sp.end) && Blank(sp.end)
    && text == Written(toks, sp.gaps) + sp.end
  }

  lemma LaysMore(text: string, gap: string, tok: Token, toks: seq<Token>, more: string, sp: Spacing)
    requires Blank(gap) && Follows(tok, more) && Lays(more, toks, sp) && text == gap + (TokenText(tok) + more)
    ensures Lays(text, [tok] + toks, Spacing([gap] + sp.gaps, sp.end))
  {
    var all, gaps := [tok] + toks, [gap] + sp.gaps;
    assert all[1..] == toks && gaps[1..] == sp.gaps;
    WrittenFirst(gap, TokenText(tok), Written(toks, sp.gaps), sp.end);
  }

  lemma LexedApart(r: string) returns (tok: Token, more: string)
    requires r != "" && Agreement.Readable(LexToken(r).0)
    ensures Plain(tok) && Follows(tok, more) && r == TokenText(tok) + more && |more| < |r|
    ensures tok == LexToken(r).0 && more == r[LexToken(r).1..]
  {
    LexedIs(r);
    var n := LexToken(r).1;
    tok, more := LexToken(r).0, r[n..];
    assert r == r[..n] + r[n..];
  }

  /** The first token of a text, what stands before it and what comes after it. */
  lemma FirstWritten(s: string) returns (gap: string, tok: Token, more: string)
    requires Agreement.AllRead(Tokens(s)) && PastSpace(s) != ""
    ensures |more| < |s| && Blank(gap) && Plain(tok) && Follows(tok, more) && s == gap + (TokenText(tok) + more)
    ensures Tokens(s) == [tok] + Tokens(more) && Agreement.AllRead(Tokens(more))
  {
    var m := Span(Space, s);
    var r := s[m..];
    Agreement.FirstRead(s, r);
    tok, more := LexedApart(r);
    gap := s[..m];
    assert s == gap + r;
  }

  lemma NothingWritten(s: string)
    requires PastSpace(s) == ""
    ensures Blank(s) && Tokens(s) == [End] && Lays(s, [], Spacing([], s))
  {
    assert "" + s == s;
  }

  lemma OneMoreWritten(s: string, gap: string, tok: Token, more: string, later: seq<Token>, sp': Spacing)
    returns (toks: seq<Token>, sp: Spacing)
    requires Blank(gap) && Plain(tok) && Follows(tok, more) && s == gap + (TokenText(tok) + more)
    requires AllPlain(later) && Lays(more, later, sp') && Tokens(more) == later + [End]
    ensures [tok] + Tokens(more) == toks + [End] && AllPlain(toks) && Lays(s, toks, sp)
  {
    LaysMore(s, gap, tok, later, more, sp');
    toks, sp := [tok] + later, Spacing([gap] + sp'.gaps, sp'.end);
    ConcatAssoc([tok], later, [End]);
  }

  /** A text the lexer reads to its end is written from its tokens. */
  lemma {:induction false} TextIsWritten(s: string) returns (toks: seq<Token>, sp: Spacing)
    requires Agreement.AllRead(Tokens(s))
    ensures Tokens(s) == toks + [End] && AllPlain(toks) && Lays(s, toks, sp)
    decreases |s|
  {
    if PastSpace(s) == "" {
      NothingWritten(s);
      toks, sp := [], Spacing([], s);
    } else {
      var gap, tok, more := FirstWritten(s);
      var later, sp' := TextIsWritten(more);
      toks, sp := OneMoreWritten(s, gap, tok, more, later, sp');
    }
  }

  // ---- Spellings are plain ----

  lemma KeywordCapitals(i: nat)
    requires i < |KEYWORDS|
    ensures KEYWORDS[i] != "" && forall j :: 0 <= j < |KEYWORDS[i]| ==> 'A' <= KEYWORDS[i][j] <= 'Z'
  {
  }

  lemma KeywordPlain(word: string, i: nat)
    requires i < |KEYWORDS| && Says(word, KEYWORDS[i])
    ensures AllPlain([Word(word)])
  {
    KeywordCapitals(i);
    forall j | 0 <= j < |word|
      ensures IsNameStart(word[j])
    {
      assert Upper(word)[j] == UpperAscii(word[j]);
    }
  }

  lemma TablePlain(t: JoinTable, ch: TableChoice)
    requires t.WellFormed() && TableFits(ch)
    ensures AllPlain(TableSpelled(t, ch))
  {
    if ch.asWord.Some? {
      KeywordPlain(ch.asWord.value, Reads.AS);
    }
  }

  lemma PairPlain(p: JoinPair, position: nat, tables: seq<JoinTable>, ch: PairChoice)
    requires TablesWF(tables) && p.left.join < |tables| && position < |tables| && p.left.column != "" && p.right != ""
    ensures AllPlain(PairSpelled(p, position, tables, ch))
  {
    RefPlain(tables[p.left.join].Name(), p.left.column, ch.left);
    RefPlain(tables[position].Name(), p.right, ch.right);
  }

  lemma RefPlain(table: string, column: string, ch: RefChoice)
    requires table != "" && column != ""
    ensures AllPlain(RefSpelled(table, column, ch))
  {
  }

  lemma AllPlainThree(a: seq<Token>, b: seq<Token>, c: seq<Token>)
    requires AllPlain(a) && AllPlain(b) && AllPlain(c)
    ensures AllPlain(a + (b + c))
  {
  }

  lemma AndPlain(chs: seq<PairChoice>, k: nat)
    requires forall i :: 0 <= i < |chs| - 1 ==> Says(chs[i].andWord, "AND")
    requires k < |chs|
    ensures AllPlain(if k + 1 < |chs| then [Word(chs[k].andWord)] else [])
  {
    if k + 1 < |chs| {
      KeywordPlain(chs[k].andWord, Reads.AND);
    }
  }

  lemma PairThenPlain(
    on: seq<JoinPair>, k: nat, position: nat, tables: seq<JoinTable>, chs: seq<PairChoice>, more: seq<Token>)
    requires TablesWF(tables) && position < |tables| && PairsWF(on, position) && k < |on| && PairsFit(on, chs)
    requires AllPlain(more)
    ensures AllPlain(
              PairSpelled(on[k], position, tables, chs[k])
              + ((if k + 1 < |on| then [Word(chs[k].andWord)] else []) + more))
  {
    PairPlain(on[k], position, tables, chs[k]);
    AndPlain(chs, k);
    AllPlainThree(
      PairSpelled(on[k], position, tables, chs[k]), if k + 1 < |on| then [Word(chs[k].andWord)] else [], more);
  }

  lemma {:induction false} PairsPlain(
    on: seq<JoinPair>, k: nat, position: nat, tables: seq<JoinTable>, chs: seq<PairChoice>)
    requires TablesWF(tables) && position < |tables| && PairsWF(on, position) && k <= |on| && PairsFit(on, chs)
    ensures AllPlain(PairsSpelled(on, k, position, tables, chs))
    decreases |on| - k
  {
    if k < |on| {
      PairsPlain(on, k + 1, position, tables, chs);
      PairThenPlain(on, k, position, tables, chs, PairsSpelled(on, k + 1, position, tables, chs));
    }
  }

  lemma KindPlain(kind: JoinType, ch: KindChoice)
    requires KindFits(kind, ch)
    ensures AllPlain(KindSpelled(ch))
  {
    match ch
    case Bare(join) => KeywordPlain(join, Reads.JOIN);
    case WithInner(inner, join) =>
      KeywordPlain(inner, Reads.INNER);
      KeywordPlain(join, Reads.JOIN);
    case WithLeft(left, join) =>
      KeywordPlain(left, Reads.LEFT);
      KeywordPlain(join, Reads.JOIN);
    case WithOuter(left, outer, join) =>
      KeywordPlain(left, Reads.LEFT);
      KeywordPlain(outer, Reads.OUTER);
      KeywordPlain(join, Reads.JOIN);
  }

  lemma ClausePlain(j: JoinClause, position: nat, tables: seq<JoinTable>, ch: ClauseChoice)
    requires TablesWF(tables) && position < |tables| && PairsWF(j.on, position) && ClauseFits(j, ch)
    ensures AllPlain(ClauseSpelled(j, position, tables, ch))
  {
    KindPlain(j.kind, ch.kind);
    TablePlain(tables[position], ch.table);
    KeywordPlain(ch.onWord, Reads.ON);
    PairsPlain(j.on, 0, position, tables, ch.pairs);
  }

  /** Plain tokens, and then the end of the text. */
  predicate PlainToEnd(toks: seq<Token>) {
    toks != [] && toks[|toks| - 1] == End && AllPlain(toks[..|toks| - 1])
  }

  lemma PlainThen(a: seq<Token>, b: seq<Token>)
    requires AllPlain(a) && PlainToEnd(b)
    ensures PlainToEnd(a + b)
  {
    assert (a + b)[..|a + b| - 1] == a + b[..|b| - 1];
  }

  lemma {:induction false} ClausesPlain(def: JoinDef, i: nat, ch: Choices)
    requires WellFormed(def) && Fits(def, ch) && i <= |def.joins|
    ensures PlainToEnd(ClausesSpelled(def, i, ch))
    decreases |def.joins| - i
  {
    if i < |def.joins| {
      ClausesPlain(def, i + 1, ch);
      Reads.ClausesNext(def, i, ch);
      ClausePlain(def.joins[i], i + 1, def.tables, ch.clauses[i]);
      PlainThen(ClauseSpelled(def.joins[i], i + 1, def.tables, ch.clauses[i]), ClausesSpelled(def, i + 1, ch));
    }
  }

  lemma {:induction false} ItemsPlain(cs: seq<JoinColumn>, k: nat, tables: seq<JoinTable>, chs: seq<RefChoice>)
    requires TablesWF(tables) && ColumnsWF(cs, |tables|) && k <= |cs| == |chs|
    ensures AllPlain(ItemsSpelled(cs, k, tables, chs))
    decreases |cs| - k
  {
    if k < |cs| {
      ItemsPlain(cs, k + 1, tables, chs);
      if cs[k].Single? {
        RefPlain(tables[cs[k].join].Name(), cs[k].column, chs[k]);
      }
      AllPlainThree(
        ItemSpelled(cs[k], tables, chs[k]), if k + 1 < |cs| then [Symbol(',')] else [],
        ItemsSpelled(cs, k + 1, tables, chs));
    }
  }

  lemma SelectPlain(columns: Option<seq<JoinColumn>>, tables: seq<JoinTable>, ch: SelectChoice)
    requires TablesWF(tables) && SelectFits(columns, ch) && (columns.Some? ==> ColumnsWF(columns.value, |tables|))
    ensures AllPlain(SelectSpelled(columns, tables, ch))
  {
    match ch
    case Absent =>
    case Star(select) => KeywordPlain(select, Reads.SELECT);
    case Listing(select, items) =>
      KeywordPlain(select, Reads.SELECT);
      ItemsPlain(columns.value, 0, tables, items);
  }

  lemma SpelledPlain(def: JoinDef, ch: Choices)
    requires WellFormed(def) && Fits(def, ch)
    ensures PlainToEnd(Spelled(def, ch))
  {
    var table, clauses := TableSpelled(def.tables[0], ch.base), ClausesSpelled(def, 0, ch);
    ClausesPlain(def, 0, ch);
    TablePlain(def.tables[0], ch.base);
    PlainThen(table, clauses);
    KeywordPlain(ch.fromWord, Reads.FROM);
    PlainThen([Word(ch.fromWord)], table + clauses);
    SelectPlain(def.columns, def.tables, ch.select);
    PlainThen(SelectSpelled(def.columns, def.tables, ch.select), [Word(ch.fromWord)] + (table + clauses));
  }

  // ---- The language, as text ----

  /** The spelling but for the end of the text. */
  function Core(def: JoinDef, ch: Choices): seq<Token>
    requires WellFormed(def) && Fits(def, ch)
  {
    Spelled(def, ch)[..|Spelled(def, ch)| - 1]
  }

  /** `text` spells `def` by the choices `ch`, spaced by `sp`. */
  ghost predicate Spells(text: string, def: JoinDef, ch: Choices, sp: Spacing) {
    WellFormed(def) && Fits(def, ch) && Lays(text, Core(def, ch), sp)
  }

  lemma LaysTokens(text: string, toks: seq<Token>, sp: Spacing)
    requires AllPlain(toks) && Lays(text, toks, sp)
    ensures Tokens(text) == toks + [End]
  {
    WrittenTokens(toks, sp.gaps, sp.end);
  }

  lemma PlainInit(toks: seq<Token>)
    requires PlainToEnd(toks)
    ensures AllPlain(toks[..|toks| - 1]) && toks == toks[..|toks| - 1] + [End]
  {
  }

  lemma CoreIs(def: JoinDef, ch: Choices)
    requires WellFormed(def) && Fits(def, ch)
    ensures AllPlain(Core(def, ch)) && Spelled(def, ch) == Core(def, ch) + [End]
  {
    SpelledPlain(def, ch);
    PlainInit(Spelled(def, ch));
  }

  lemma SpellsTokens(text: string, def: JoinDef, ch: Choices, sp: Spacing)
    requires Spells(text, def, ch, sp)
    ensures Tokens(text) == Spelled(def, ch)
  {
    CoreIs(def, ch);
    LaysTokens(text, Core(def, ch), sp);
  }

  /** However it is worded, ordered, quoted and spaced, a text is read as the definition it spells. */
  lemma SpelledTextIsRead(text: string, def: JoinDef, ch: Choices, sp: Spacing, opts: Options)
    requires Spells(text, def, ch, sp) && Meets(def, opts) && Reads.AllAskable(opts, ch)
    ensures Parse(text, opts) == Success(def)
  {
    SpellsTokens(text, def, ch, sp);
    Reads.SpelledIsRead(def, ch, opts);
  }

  /** An accepted text is spelled and spaced in some such way. */
  lemma AcceptedIsSpelled(text: string, def: JoinDef, opts: Options) returns (ch: Choices, sp: Spacing)
    requires WellFormed(def) && Parse(text, opts) == Success(def)
    ensures Spells(text, def, ch, sp)
  {
    Only.TokensLexed(text);
    ch := Only.StatementIsSpelled(Tokens(text), def, opts);
    var _ := Agreement.AcceptedIsRead(text, opts);
    var toks, spaced := TextIsWritten(text);
    sp := spaced;
    assert Core(def, ch) == toks;
  }

  /**
   * The parser reads a text as a definition exactly when the definition meets the
   * catalog and the text is one of the ways to spell and space it.
   */
  lemma ReadsExactly(text: string, def: JoinDef, opts: Options)
    requires WellFormed(def) && Symmetric(opts)
    ensures Parse(text, opts) == Success(def) <==> Meets(def, opts) && exists ch, sp :: Spells(text, def, ch, sp)
  {
    if Parse(text, opts) == Success(def) {
      var ch, sp := AcceptedIsSpelled(text, def, opts);
      Catalogs.CatalogOnlyRefuses(text, opts);
    }
    if Meets(def, opts) && exists ch, sp :: Spells(text, def, ch, sp) {
      var ch, sp :| Spells(text, def, ch, sp);
      SpelledTextIsRead(text, def, ch, sp, opts);
    }
  }
}

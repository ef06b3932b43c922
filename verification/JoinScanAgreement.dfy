/**
 * The scanner of the join text field agrees with the parser: for every text
 * the parser accepts, the tables the scanner declares are the definition's.
 */
module JoinScanAgreement {
  import opened Outcomes
  import opened Text
  import opened JoinTypes
  import opened Grammar = JoinGrammar
  import opened Scanner = JoinScanner

  // ---- A token of the parser as a word of the scanner ----

  /** The tokens the grammar reads. */
  predicate Readable(t: Grammar.Token) {
    t.Quoted? || t.Symbol? || (t.Word? && t.text != "" && t.text[0] != '"')
  }

  function WordOf(t: Grammar.Token): Scanner.Word {
    match t
    case Word(w) => Scanner.Word(WordKind(w), w)
    case Quoted(n) => Scanner.Word(Name, Enclosed(n, '"'))
    case Symbol(c) => Scanner.Word(if IsPunct(c) then Punct else Plain, [c])
    case _ => Scanner.Word(Plain, "")
  }

  /** The words of all but the last `k` tokens. */
  function WordsOf(toks: seq<Grammar.Token>, k: nat): (words: seq<Scanner.Word>)
    ensures |words| == if k <= |toks| then |toks| - k else 0
  {
    if |toks| <= k then [] else [WordOf(toks[0])] + WordsOf(toks[1..], k)
  }

  lemma {:induction false} WordsOfAt(toks: seq<Grammar.Token>, k: nat, i: nat)
    requires i + k < |toks|
    ensures WordsOf(toks, k)[i] == WordOf(toks[i])
  {
    if i > 0 {
      WordsOfAt(toks[1..], k, i - 1);
    }
  }

  lemma {:induction false} WordsOfDrop(toks: seq<Grammar.Token>, k: nat, n: nat)
    requires n + k <= |toks|
    ensures WordsOf(toks, k)[n..] == WordsOf(toks[n..], k)
  {
    if n > 0 {
      WordsOfDrop(toks[1..], k, n - 1);
      assert toks[1..][n - 1..] == toks[n..];
    } else {
      assert toks[0..] == toks;
    }
  }

  lemma {:induction false} WordsOfPrefix(toks: seq<Grammar.Token>, k: nat, k': nat)
    requires k <= k' <= |toks|
    ensures WordsOf(toks, k') == WordsOf(toks, k)[..|toks| - k']
  {
    if k' < |toks| {
      WordsOfPrefix(toks[1..], k, k');
    }
  }

  // ---- The two lexers ----

  lemma QuotesAgree(s: string)
    requires s != "" && s[0] == '"' && LexToken(s).0.Quoted?
    ensures var (tok, n) := LexToken(s); NextToken(s) == Lexed(Name, n) && s[..n] == WordOf(tok).text
  {
    ScannedIsDoubled(s[1..], '"');
    var n := LexToken(s).1;
    assert s[..n] == ['"'] + s[1..][..n - 1];
  }

  lemma LexersAgree(s: string)
    requires s != "" && !IsSpace(s[0]) && Readable(LexToken(s).0)
    ensures var (tok, n) := LexToken(s);
            NextToken(s) == Lexed(WordOf(tok).kind, n) && s[..n] == WordOf(tok).text && WordOf(tok).kind != Kind.Space
  {
    if s[0] == '"' {
      QuotesAgree(s);
    }
  }

  ghost predicate AllRead(toks: seq<Grammar.Token>) {
    toks != [] && toks[|toks| - 1] == End && forall i :: 0 <= i < |toks| - 1 ==> Readable(toks[i])
  }

  lemma TokenIsReadable(s: string)
    requires s != ""
    ensures LexToken(s).0.Word? ==> Readable(LexToken(s).0)
  {
  }

  lemma WordsSkipSpace(s: string)
    ensures Words(NextToken, s) == Words(NextToken, s[Span(CharClass.Space, s)..])
  {
    if s != "" && IsSpace(s[0]) {
      assert NextToken(s) == Lexed(Kind.Space, Span(CharClass.Space, s));
    } else {
      assert s[0..] == s;
    }
  }

  lemma ReadParts(tok: Grammar.Token, later: seq<Grammar.Token>)
    requires AllRead([tok] + later) && later != []
    ensures Readable(tok) && AllRead(later)
  {
    var toks := [tok] + later;
    assert toks[0] == tok;
    forall i | 0 <= i < |later| - 1
      ensures Readable(later[i])
    {
      assert toks[i + 1] == later[i];
    }
    assert toks[|toks| - 1] == later[|later| - 1];
  }

  lemma FirstToken(s: string, r: string)
    requires r == s[Span(CharClass.Space, s)..] && r != ""
    ensures var (tok, n) := LexToken(r);
            Tokens(s) == if tok.Bad? then [tok] else [tok] + Tokens(r[n..])
  {
  }

  lemma OneRead(tok: Grammar.Token)
    requires AllRead([tok])
    ensures tok == End
  {
    assert [tok][0] == tok;
  }

  /** A text of readable tokens is its first one and a text of the others. */
  lemma FirstRead(s: string, r: string)
    requires AllRead(Tokens(s)) && r == s[Span(CharClass.Space, s)..] && r != ""
    ensures var (tok, n) := LexToken(r);
            !tok.Bad? && Readable(tok) && Tokens(s) == [tok] + Tokens(r[n..]) && AllRead(Tokens(r[n..]))
  {
    var (tok, n) := LexToken(r);
    FirstToken(s, r);
    if tok.Bad? {
      OneRead(tok);
    } else {
      ReadParts(tok, Tokens(r[n..]));
    }
  }

  /** Where every token is one the grammar reads, the two lexers spell the text alike. */
  lemma {:induction false} WordsAgree(s: string)
    requires AllRead(Tokens(s))
    ensures Words(NextToken, s) == WordsOf(Tokens(s), 1)
    decreases |s|
  {
    WordsSkipSpace(s);
    var r := s[Span(CharClass.Space, s)..];
    if r != "" {
      var (tok, n) := LexToken(r);
      FirstRead(s, r);
      LexersAgree(r);
      WordsAgree(r[n..]);
      assert Tokens(s)[1..] == Tokens(r[n..]);
    }
  }

  lemma {:induction false} UndoubledDoubled(s: string)
    ensures Undoubled(Doubled(s, '"')) == s
  {
    if s != "" {
      UndoubledDoubled(s[1..]);
      var d := Doubled(s[1..], '"');
      var whole := DoubledChar(s[0], '"') + d;
      if s[0] == '"' {
        assert whole[2..] == d;
      } else {
        assert whole[1..] == d;
      }
    }
  }

  lemma NameIsUnquoted(t: Grammar.Token)
    requires IsName(t) && Readable(t)
    ensures WordOf(t).kind == Name && Unquote(WordOf(t).text) == t.text
  {
    if t.Quoted? {
      var s := Enclosed(t.text, '"');
      assert s[1..|s| - 1] == Doubled(t.text, '"');
      UndoubledDoubled(t.text);
    }
  }

  // ---- Reading tokens ----

  /** `rest` is what is left of `toks` after reading tokens of the grammar. */
  ghost predicate Read(toks: seq<Grammar.Token>, rest: seq<Grammar.Token>) {
    && |rest| <= |toks| && toks[|toks| - |rest|..] == rest
    && forall i :: 0 <= i < |toks| - |rest| ==> Readable(toks[i])
  }

  lemma ReadTrans(a: seq<Grammar.Token>, b: seq<Grammar.Token>, c: seq<Grammar.Token>)
    requires Read(a, b) && Read(b, c)
    ensures Read(a, c)
  {
    forall i | 0 <= i < |a| - |c|
      ensures Readable(a[i])
    {
      if i >= |a| - |b| {
        assert a[i] == b[i - (|a| - |b|)];
      }
    }
    assert a[|a| - |c|..] == a[|a| - |b|..][|b| - |c|..];
  }

  /** The words of the tokens are what a lexer writes: none but a quoted name starts with a quote. */
  ghost predicate Lexical(toks: seq<Grammar.Token>) {
    forall i :: 0 <= i < |toks| && toks[i].Word? ==> Readable(toks[i])
  }

  lemma LexicalRest(toks: seq<Grammar.Token>, rest: seq<Grammar.Token>)
    requires Lexical(toks) && Read(toks, rest)
    ensures Lexical(rest)
  {
    forall i | 0 <= i < |rest| && rest[i].Word?
      ensures Readable(rest[i])
    {
      assert rest[i] == toks[i + (|toks| - |rest|)];
    }
  }

  lemma ReadOne(toks: seq<Grammar.Token>)
    requires toks != [] && Readable(toks[0])
    ensures Read(toks, toks[1..])
  {
  }

  // ---- Steps of the state machine ----

  /** The state after the words of all but the last `k` tokens. */
  function Go(toks: seq<Grammar.Token>, k: nat, st: State): State {
    Run(WordsOf(toks, k), st)
  }

  lemma KeywordGoes(toks: seq<Grammar.Token>, k: nat, st: State, word: nat)
    requires Lexical(toks) && k < |toks| && word < |KEYWORDS| && IsWord(toks[0], KEYWORDS[word])
    ensures Go(toks, k, st) == Go(toks[1..], k, KeywordStep(KEYWORDS[word], st))
    ensures Read(toks, toks[1..]) && Lexical(toks[1..])
  {
    ListedAt(KEYWORDS, word);
    ReadOne(toks);
    LexicalRest(toks, toks[1..]);
    assert WordOf(toks[0]).kind == Keyword;
  }

  /** The state after a name that a table clause gives. */
  function NameStep(name: string, st: State): State {
    if st.mode == InTable then st.(pending := Some(Declared(name, name)), mode := AfterTable)
    else if st.mode == AfterTable || st.mode == InAlias then
      st.(
        pending := if st.pending.Some? then Some(st.pending.value.(name := name)) else None,
        mode := AfterTable)
    else st
  }

  lemma NameRuns(words: seq<Scanner.Word>, st: State)
    requires words != [] && words[0].kind == Name && st.mode != InColumn
    ensures Run(words, st) == Run(words[1..], NameStep(Unquote(words[0].text), st))
  {
  }

  lemma NameGoes(toks: seq<Grammar.Token>, k: nat, st: State)
    requires Lexical(toks) && k < |toks| && IsName(toks[0]) && st.mode != InColumn
    ensures Go(toks, k, st) == Go(toks[1..], k, NameStep(toks[0].text, st))
    ensures Read(toks, toks[1..]) && Lexical(toks[1..])
  {
    ReadOne(toks);
    LexicalRest(toks, toks[1..]);
    NameIsUnquoted(toks[0]);
    NameRuns(WordsOf(toks, k), st);
    assert WordsOf(toks, k)[1..] == WordsOf(toks[1..], k);
  }

  lemma SymbolGoes(toks: seq<Grammar.Token>, k: nat, st: State)
    requires Lexical(toks) && k < |toks| && toks[0].Symbol?
    ensures Go(toks, k, st)
         == Go(toks[1..], k,
               if toks[0] == Symbol('=') && st.mode == AfterColumn then st.(mode := InColumn, afterEq := true) else st)
    ensures Read(toks, toks[1..]) && Lexical(toks[1..])
  {
    ReadOne(toks);
    LexicalRest(toks, toks[1..]);
  }

  lemma DottedStep(words: seq<Scanner.Word>, st: State)
    requires StartsDotted(words) && st.mode == InColumn
    ensures Run(words, st)
         == Run(words[3..],
                st.(refs := st.refs + [Ref(Unquote(words[0].text), Unquote(words[2].text))], mode := AfterColumn))
  {
  }

  lemma DottedWords(toks: seq<Grammar.Token>, k: nat)
    requires Lexical(toks) && k + 3 <= |toks| && IsName(toks[0]) && toks[1] == Symbol('.') && IsName(toks[2])
    ensures var words := WordsOf(toks, k);
            && StartsDotted(words) && words[3..] == WordsOf(toks[3..], k)
            && Unquote(words[0].text) == toks[0].text && Unquote(words[2].text) == toks[2].text
  {
    NameIsUnquoted(toks[0]);
    NameIsUnquoted(toks[2]);
    WordsOfAt(toks, k, 0);
    WordsOfAt(toks, k, 1);
    WordsOfAt(toks, k, 2);
    WordsOfDrop(toks, k, 3);
  }

  lemma ColRefTokens(toks: seq<Grammar.Token>)
    requires Lexical(toks) && ColRef(toks).Success?
    ensures var (ref, rest) := ColRef(toks).value;
            && |toks| == |rest| + 3 && rest == toks[3..] && Read(toks, rest) && Lexical(rest)
            && IsName(toks[0]) && toks[1] == Symbol('.') && IsName(toks[2])
            && ref == Reference(toks[0].text, toks[2].text)
  {
    var rest := ColRef(toks).value.1;
    assert rest == toks[3..];
    LexicalRest(toks, rest);
  }

  lemma ColRefGoes(toks: seq<Grammar.Token>, k: nat, st: State)
    requires Lexical(toks) && ColRef(toks).Success? && st.mode == InColumn
    requires k <= |ColRef(toks).value.1|
    ensures var (ref, rest) := ColRef(toks).value;
            Go(toks, k, st)
            == Go(rest, k, st.(refs := st.refs + [Ref(ref.qualifier, ref.column)], mode := AfterColumn))
  {
    ColRefTokens(toks);
    DottedWords(toks, k);
    DottedStep(WordsOf(toks, k), st);
  }

  // ---- Clauses ----

  function DeclaredBy(t: JoinTable): Declared {
    Declared(t.Name(), t.table)
  }

  /** The declarations of a list of tables. */
  function DeclaredAs(tables: seq<JoinTable>): seq<Declared> {
    seq(|tables|, i requires 0 <= i < |tables| => DeclaredBy(tables[i]))
  }

  /** The three forms of an alias: none, `AS name`, `name`. */
  lemma AliasTokens(toks: seq<Grammar.Token>) returns (form: nat)
    requires Alias(toks).Success?
    ensures var (alias, rest) := Alias(toks).value;
            && form <= |toks| && rest == toks[form..]
            && (form == 0 ==> alias.None?)
            && (form == 1 ==> IsName(toks[0]) && alias == Some(toks[0].text))
            && (form == 2 ==> IsWord(toks[0], "AS") && IsName(toks[1]) && alias == Some(toks[1].text))
            && form <= 2
  {
    var rest := Alias(toks).value.1;
    if toks != [] && IsWord(toks[0], "AS") {
      form := 2;
    } else if toks != [] && IsName(toks[0]) {
      form := 1;
    } else {
      form := 0;
    }
  }

  lemma AliasGoes(toks: seq<Grammar.Token>, k: nat, st: State, name: string) returns (st': State)
    requires Lexical(toks) && Alias(toks).Success? && k <= |Alias(toks).value.1|
    requires st.mode == AfterTable && st.pending == Some(Declared(name, name))
    ensures var (alias, rest) := Alias(toks).value;
            && Read(toks, rest) && Lexical(rest)
            && st' == st.(pending := Some(DeclaredBy(JoinTable(name, alias))))
            && Go(toks, k, st) == Go(rest, k, st')
  {
    var (alias, rest) := Alias(toks).value;
    st' := st.(pending := Some(DeclaredBy(JoinTable(name, alias))));
    var form := AliasTokens(toks);
    if form == 2 {
      KeywordGoes(toks, k, st, 8);
      NameGoes(toks[1..], k, st.(mode := InAlias));
      ReadTrans(toks, toks[1..], rest);
    } else if form == 1 {
      NameGoes(toks, k, st);
    }
  }

  lemma AliasReadsOn(toks: seq<Grammar.Token>)
    requires Alias(toks).Success?
    ensures |Alias(toks).value.1| <= |toks|
  {
    var _ := AliasTokens(toks);
  }

  lemma DeclaredMore(tables: seq<JoinTable>, t: JoinTable)
    ensures DeclaredAs(tables + [t]) == DeclaredAs(tables) + [DeclaredBy(t)]
  {
  }

  lemma TableRefTokens(toks: seq<Grammar.Token>, tables: seq<JoinTable>, opts: Options)
    requires TableRef(toks, tables, opts).Success?
    ensures toks != [] && IsName(toks[0]) && Alias(toks[1..]).Success?
    ensures var (alias, rest) := Alias(toks[1..]).value;
            TableRef(toks, tables, opts) == Success((tables + [JoinTable(toks[0].text, alias)], rest))
  {
  }

  lemma TableRefGoes(toks: seq<Grammar.Token>, tables: seq<JoinTable>, opts: Options, k: nat, st: State)
    returns (st': State)
    requires Lexical(toks) && TableRef(toks, tables, opts).Success? && k <= |TableRef(toks, tables, opts).value.1|
    requires st.mode == InTable && st.pending.None? && st.declared == DeclaredAs(tables)
    ensures var (tables', rest) := TableRef(toks, tables, opts).value;
            && Read(toks, rest) && Lexical(rest)
            && st'.AllDeclared() == DeclaredAs(tables')
            && st'.mode == AfterTable && Go(toks, k, st) == Go(rest, k, st')
  {
    TableRefTokens(toks, tables, opts);
    var (alias, rest) := Alias(toks[1..]).value;
    var name := toks[0].text;
    AliasReadsOn(toks[1..]);
    NameGoes(toks, k, st);
    st' := AliasGoes(toks[1..], k, st.(pending := Some(Declared(name, name)), mode := AfterTable), name);
    ReadTrans(toks, toks[1..], rest);
    DeclaredMore(tables, JoinTable(name, alias));
  }

  lemma SidesGo(toks: seq<Grammar.Token>, k: nat, st: State) returns (st': State)
    requires Lexical(toks) && Sides(toks).Success? && st.mode == InColumn && st.pending.None?
    ensures var rest := Sides(toks).value.2;
            && Read(toks, rest) && Lexical(rest) && |toks| == |rest| + 7 && EndsInRef(toks, |rest|)
            && st'.mode == AfterColumn && st'.pending.None? && st'.declared == st.declared
            && (k <= |rest| ==> Go(toks, k, st) == Go(rest, k, st'))
            && (k == |rest| + 3 ==> Go(toks, k, st).AllDeclared() == st.declared)
  {
    var (first, afterFirst) := ColRef(toks).value;
    var (second, rest) := ColRef(Rest(afterFirst)).value;
    var st1 := st.(refs := st.refs + [Ref(first.qualifier, first.column)], mode := AfterColumn);
    var st2 := st1.(mode := InColumn, afterEq := true);
    st' := st2.(refs := st2.refs + [Ref(second.qualifier, second.column)], mode := AfterColumn);
    ColRefTokens(toks);
    ColRefTokens(afterFirst[1..]);
    if k <= |rest| + 3 {
      ColRefGoes(toks, k, st);
      SymbolGoes(afterFirst, k, st1);
      if k <= |rest| {
        ColRefGoes(afterFirst[1..], k, st2);
      }
    }
    ReadOne(afterFirst);
    ReadTrans(toks, afterFirst, afterFirst[1..]);
    ReadTrans(toks, afterFirst[1..], rest);
  }

  /** The last token but `r` ends a column reference. */
  predicate EndsInRef(toks: seq<Grammar.Token>, r: nat) {
    && r + 3 <= |toks|
    && var n := |toks| - r;
       IsName(toks[n - 3]) && toks[n - 2] == Symbol('.') && IsName(toks[n - 1])
  }

  lemma EndsInRefBefore(toks: seq<Grammar.Token>, later: seq<Grammar.Token>, r: nat)
    requires Read(toks, later) && EndsInRef(later, r)
    ensures EndsInRef(toks, r)
  {
    var d := |toks| - |later|;
    assert forall i :: 0 <= i < |later| ==> later[i] == toks[d + i];
  }

  /** Whether `AND` and another pair follow. */
  predicate MorePairs(toks: seq<Grammar.Token>) {
    toks != [] && IsWord(toks[0], "AND")
  }

  lemma PairsTokens(toks: seq<Grammar.Token>, tables: seq<JoinTable>, on: seq<JoinPair>, opts: Options)
    returns (on': seq<JoinPair>)
    requires tables != [] && |on| < MAX_PAIRS && Pairs(toks, tables, on, opts).Success?
    ensures Sides(toks).Success? && |on'| == |on| + 1
    ensures var rest := Sides(toks).value.2;
            if !MorePairs(rest) then Pairs(toks, tables, on, opts) == Success((on', rest))
            else |on'| < MAX_PAIRS && Pairs(toks, tables, on, opts) == Pairs(rest[1..], tables, on', opts)
  {
    on' := on + [Pair(toks, tables, opts).value.0];
  }

  lemma {:induction false} PairsGo(
    toks: seq<Grammar.Token>, tables: seq<JoinTable>, on: seq<JoinPair>, opts: Options, k: nat, st: State)
    returns (st': State)
    requires tables != [] && |on| < MAX_PAIRS && Pairs(toks, tables, on, opts).Success?
    requires Lexical(toks) && st.mode == InColumn && st.pending.None?
    ensures var rest := Pairs(toks, tables, on, opts).value.1;
            && Read(toks, rest) && Lexical(rest) && |rest| + 3 < |toks| && EndsInRef(toks, |rest|)
            && st'.mode == AfterColumn && st'.pending.None? && st'.declared == st.declared
            && (k <= |rest| ==> Go(toks, k, st) == Go(rest, k, st'))
            && (k == |rest| + 3 ==> Go(toks, k, st).AllDeclared() == st.declared)
    decreases MAX_PAIRS - |on|
  {
    var on' := PairsTokens(toks, tables, on, opts);
    st' := SidesGo(toks, k, st);
    var next := Sides(toks).value.2;
    if MorePairs(next) {
      var rest := Pairs(toks, tables, on, opts).value.1;
      ReadOne(next);
      LexicalRest(next, next[1..]);
      var st1 := KeywordStep("AND", st');
      if k < |next| {
        KeywordGoes(next, k, st', 7);
      }
      st' := PairsGo(next[1..], tables, on', opts, k, st1);
      ReadTrans(next, next[1..], rest);
      ReadTrans(toks, next, rest);
      EndsInRefBefore(next, next[1..], |rest|);
      EndsInRefBefore(toks, next, |rest|);
    }
  }

  /** The four ways to say which join: how many words, and the words. */
  lemma JoinKindTokens(toks: seq<Grammar.Token>) returns (words: nat)
    requires JoinKind(toks).Success?
    ensures 1 <= words <= 3 && words <= |toks| && JoinKind(toks).value.1 == toks[words..]
    ensures IsWord(toks[words - 1], "JOIN")
    ensures words == 2 ==> IsWord(toks[0], "INNER") || IsWord(toks[0], "LEFT")
    ensures words == 3 ==> IsWord(toks[0], "LEFT") && IsWord(toks[1], "OUTER")
  {
    words := |toks| - |JoinKind(toks).value.1|;
  }

  /** INNER, LEFT and OUTER end a table clause and nothing else. */
  lemma KindWordGoes(toks: seq<Grammar.Token>, k: nat, st: State, word: nat)
    requires Lexical(toks) && k < |toks| && 3 <= word <= 5 && IsWord(toks[0], KEYWORDS[word]) && st.mode != Start
    ensures Go(toks, k, st) == Go(toks[1..], k, st.Flushed())
    ensures Read(toks, toks[1..]) && Lexical(toks[1..])
  {
    KeywordGoes(toks, k, st, word);
  }

  lemma JoinWordGoes(toks: seq<Grammar.Token>, k: nat, st: State)
    requires Lexical(toks) && k < |toks| && IsWord(toks[0], "JOIN")
    ensures Go(toks, k, st) == Go(toks[1..], k, st.Flushed().(mode := InTable, from := false))
    ensures Read(toks, toks[1..]) && Lexical(toks[1..])
  {
    KeywordGoes(toks, k, st, 2);
  }

  lemma JoinKindGoes(toks: seq<Grammar.Token>, k: nat, st: State)
    requires Lexical(toks) && JoinKind(toks).Success? && k <= |JoinKind(toks).value.1| && st.mode != Start
    ensures var rest := JoinKind(toks).value.1;
            && Read(toks, rest) && Lexical(rest) && |rest| < |toks|
            && Go(toks, k, st) == Go(rest, k, st.Flushed().(mode := InTable, from := false))
  {
    var words := JoinKindTokens(toks);
    var last := toks[words - 1..];
    if words == 1 {
      assert last == toks;
      JoinWordGoes(toks, k, st);
    } else {
      KindWordGoes(toks, k, st, if IsWord(toks[0], "INNER") then 3 else 4);
      if words == 3 {
        assert toks[1..][1..] == last;
        KindWordGoes(toks[1..], k, st.Flushed(), 5);
        ReadTrans(toks, toks[1..], last);
      }
      JoinWordGoes(last, k, st.Flushed());
      ReadTrans(toks, last, last[1..]);
    }
    assert last[1..] == toks[words..];
  }

  lemma JoinedTokens(toks: seq<Grammar.Token>, tables: seq<JoinTable>, opts: Options)
    requires Joined(toks, tables, opts).Success?
    ensures TableRef(toks, tables, opts).Success?
    ensures var (tables', afterTable) := TableRef(toks, tables, opts).value;
            && tables' != []
            && afterTable != [] && IsWord(afterTable[0], "ON")
            && Pairs(afterTable[1..], tables', [], opts).Success?
            && var (on, rest) := Pairs(afterTable[1..], tables', [], opts).value;
               Joined(toks, tables, opts) == Success((tables', on, rest))
  {
  }

  /** ON and the pairs after it declare the pending table and no other. */
  lemma OnGoes(toks: seq<Grammar.Token>, tables: seq<JoinTable>, opts: Options, k: nat, st: State)
    returns (st': State)
    requires Lexical(toks) && tables != [] && toks != [] && IsWord(toks[0], "ON")
    requires Pairs(toks[1..], tables, [], opts).Success?
    ensures var rest := Pairs(toks[1..], tables, [], opts).value.1;
            && Read(toks, rest) && Lexical(rest) && |rest| + 3 < |toks| && EndsInRef(toks, |rest|)
            && st'.mode == AfterColumn && st'.AllDeclared() == st.AllDeclared()
            && (k <= |rest| ==> Go(toks, k, st) == Go(rest, k, st'))
            && (k == |rest| + 3 ==> Go(toks, k, st).AllDeclared() == st.AllDeclared())
  {
    var rest := Pairs(toks[1..], tables, [], opts).value.1;
    ReadOne(toks);
    LexicalRest(toks, toks[1..]);
    st' := PairsGo(toks[1..], tables, [], opts, k, st.Flushed().(mode := InColumn, afterEq := false, refs := []));
    if k < |toks| {
      KeywordGoes(toks, k, st, 6);
    }
    ReadTrans(toks, toks[1..], rest);
    EndsInRefBefore(toks, toks[1..], |rest|);
  }

  /**
   * A joined table is declared; cutting the last column reference off changes
   * no declaration.
   */
  lemma JoinedGoes(toks: seq<Grammar.Token>, tables: seq<JoinTable>, opts: Options, k: nat, st: State)
    returns (st': State)
    requires Lexical(toks) && Joined(toks, tables, opts).Success?
    requires k <= |Joined(toks, tables, opts).value.2| + 3
    requires st.mode == InTable && st.pending.None? && st.declared == DeclaredAs(tables)
    ensures var (tables', _, rest) := Joined(toks, tables, opts).value;
            && Read(toks, rest) && Lexical(rest) && |rest| + 3 < |toks| && EndsInRef(toks, |rest|)
            && st'.mode == AfterColumn && st'.AllDeclared() == DeclaredAs(tables')
            && (k <= |rest| ==> Go(toks, k, st) == Go(rest, k, st'))
            && (k == |rest| + 3 ==> Go(toks, k, st).AllDeclared() == DeclaredAs(tables'))
  {
    JoinedTokens(toks, tables, opts);
    var (tables', afterTable) := TableRef(toks, tables, opts).value;
    var rest := Joined(toks, tables, opts).value.2;
    var st1 := TableRefGoes(toks, tables, opts, 0, st);
    st' := OnGoes(afterTable, tables', opts, k, st1);
    var st2 := TableRefGoes(toks, tables, opts, k, st);
    st' := OnGoes(afterTable, tables', opts, k, st2);
    ReadTrans(toks, afterTable, rest);
    EndsInRefBefore(toks, afterTable, |rest|);
  }

  lemma ClauseGoes(toks: seq<Grammar.Token>, tables: seq<JoinTable>, opts: Options, k: nat, st: State)
    returns (st': State)
    requires Lexical(toks) && Clause(toks, tables, opts).Success?
    requires k <= |Clause(toks, tables, opts).value.2| + 3
    requires st.mode != Start && st.AllDeclared() == DeclaredAs(tables)
    ensures var (tables', _, rest) := Clause(toks, tables, opts).value;
            && Read(toks, rest) && Lexical(rest) && |rest| + 3 < |toks| && EndsInRef(toks, |rest|)
            && st'.mode == AfterColumn && st'.AllDeclared() == DeclaredAs(tables')
            && (k <= |rest| ==> Go(toks, k, st) == Go(rest, k, st'))
            && (k == |rest| + 3 ==> Go(toks, k, st).AllDeclared() == DeclaredAs(tables'))
  {
    var afterKind := JoinKind(toks).value.1;
    var rest := Clause(toks, tables, opts).value.2;
    JoinKindGoes(toks, 0, st);
    st' := JoinedGoes(afterKind, tables, opts, k, st.Flushed().(mode := InTable, from := false));
    JoinKindGoes(toks, k, st);
    ReadTrans(toks, afterKind, rest);
    EndsInRefBefore(toks, afterKind, |rest|);
  }

  predicate NoClause(toks: seq<Grammar.Token>) {
    toks == [] || toks[0] == End || toks[0] == Symbol(';')
  }

  lemma ClausesTokens(toks: seq<Grammar.Token>, tables: seq<JoinTable>, joins: seq<JoinClause>, opts: Options)
    requires |tables| <= MAX_TABLES && Clauses(toks, tables, joins, opts).Success?
    ensures NoClause(toks) ==> Clauses(toks, tables, joins, opts) == Success((tables, joins, toks))
    ensures !NoClause(toks) ==>
              && Clause(toks, tables, opts).Success?
              && var (tables', clause, rest) := Clause(toks, tables, opts).value;
                 Clauses(toks, tables, joins, opts) == Clauses(rest, tables', joins + [clause], opts)
  {
  }

  /** One clause followed by tokens for which the rest is known. */
  lemma ClauseThen(
    toks: seq<Grammar.Token>, tables: seq<JoinTable>, opts: Options, k: nat, st: State, rest: seq<Grammar.Token>)
    returns (st': State)
    requires Lexical(toks) && Clause(toks, tables, opts).Success?
    requires st.mode != Start && st.AllDeclared() == DeclaredAs(tables)
    requires k <= |rest| + 3
    ensures var (tables', _, next) := Clause(toks, tables, opts).value;
            && Lexical(next) && st'.mode != Start && st'.AllDeclared() == DeclaredAs(tables')
            && (k <= |next| ==> Go(toks, k, st) == Go(next, k, st'))
            && (next == rest && k == |rest| + 3 ==> Go(toks, k, st).AllDeclared() == DeclaredAs(tables'))
            && (Read(next, rest) && (next == rest || EndsInRef(next, |rest|)) ==>
                  Read(toks, rest) && EndsInRef(toks, |rest|))
  {
    var next := Clause(toks, tables, opts).value.2;
    st' := ClauseGoes(toks, tables, opts, if k <= |next| + 3 then k else 0, st);
    if Read(next, rest) {
      ReadTrans(toks, next, rest);
      if next != rest && EndsInRef(next, |rest|) {
        EndsInRefBefore(toks, next, |rest|);
      }
    }
  }

  lemma {:induction false} ClausesGo(
    toks: seq<Grammar.Token>, tables: seq<JoinTable>, joins: seq<JoinClause>, opts: Options, k: nat, st: State,
    tables': seq<JoinTable>, joins': seq<JoinClause>, rest: seq<Grammar.Token>)
    returns (st': State)
    requires |tables| <= MAX_TABLES && Clauses(toks, tables, joins, opts) == Success((tables', joins', rest))
    requires Lexical(toks) && st.mode != Start && st.AllDeclared() == DeclaredAs(tables)
    requires k <= |rest| || (k == |rest| + 3 && !NoClause(toks))
    ensures Read(toks, rest)
    ensures if NoClause(toks) then rest == toks && joins' == joins else EndsInRef(toks, |rest|)
    ensures k <= |rest| ==> st'.AllDeclared() == DeclaredAs(tables') && Go(toks, k, st) == Go(rest, k, st')
    ensures k == |rest| + 3 ==> Go(toks, k, st).AllDeclared() == DeclaredAs(tables')
    decreases MAX_TABLES - |tables|
  {
    ClausesTokens(toks, tables, joins, opts);
    if NoClause(toks) {
      st' := st;
    } else {
      var (tables1, clause, next) := Clause(toks, tables, opts).value;
      var st1 := ClauseThen(toks, tables, opts, k, st, rest);
      ClausesTokens(next, tables1, joins + [clause], opts);
      if NoClause(next) {
        st' := st1;
      } else {
        st' := ClausesGo(next, tables1, joins + [clause], opts, k, st1, tables', joins', rest);
      }
    }
  }

  // ---- The select list ----

  lemma ItemTokens(toks: seq<Grammar.Token>)
    requires SelectItem(toks).Success?
    ensures |toks| > 2 && SelectItem(toks).value.1 == toks[3..]
    ensures IsName(toks[0]) && toks[1].Symbol? && (IsName(toks[2]) || toks[2].Symbol?)
  {
    assert toks[1..][1..] == toks[2..];
    assert toks[2..][1..] == toks[3..];
  }

  /** A select item declares nothing. */
  lemma IdleGoes(toks: seq<Grammar.Token>, k: nat, st: State, n: nat)
    requires Lexical(toks) && n + k <= |toks| && st.mode == InSelect
    requires forall i :: 0 <= i < n ==> IsName(toks[i]) || toks[i].Symbol?
    ensures Go(toks, k, st) == Go(toks[n..], k, st) && Read(toks, toks[n..]) && Lexical(toks[n..])
  {
    if n > 0 {
      if toks[0].Symbol? {
        SymbolGoes(toks, k, st);
      } else {
        NameGoes(toks, k, st);
      }
      IdleGoes(toks[1..], k, st, n - 1);
      assert toks[1..][n - 1..] == toks[n..];
      ReadTrans(toks, toks[1..], toks[n..]);
    } else {
      assert toks[0..] == toks;
    }
  }

  lemma ItemsTokens(toks: seq<Grammar.Token>, items: seq<Item>) returns (items': seq<Item>)
    requires SelectItems(toks, items).Success?
    ensures SelectItem(toks).Success?
    ensures var rest := SelectItem(toks).value.1;
            if rest != [] && rest[0] == Symbol(',') then SelectItems(toks, items) == SelectItems(rest[1..], items')
            else SelectItems(toks, items) == Success((items', rest))
  {
    items' := items + [SelectItem(toks).value.0];
  }

  lemma {:induction false} ItemsGo(
    toks: seq<Grammar.Token>, items: seq<Item>, k: nat, st: State, items': seq<Item>, rest: seq<Grammar.Token>)
    requires Lexical(toks) && st.mode == InSelect && SelectItems(toks, items) == Success((items', rest)) && k <= |rest|
    ensures Go(toks, k, st) == Go(rest, k, st) && Read(toks, rest) && Lexical(rest)
    decreases |toks|
  {
    var more := ItemsTokens(toks, items);
    ItemTokens(toks);
    var next := toks[3..];
    IdleGoes(toks, 0, st, 3);
    if next != [] && next[0] == Symbol(',') {
      IdleGoes(next, 0, st, 1);
      ItemsGo(next[1..], more, k, st, items', rest);
      IdleGoes(next, k, st, 1);
      ReadTrans(toks, next, next[1..]);
      ReadTrans(toks, next[1..], rest);
    }
    IdleGoes(toks, k, st, 3);
  }

  lemma SelectTokens(toks: seq<Grammar.Token>)
    requires Select(toks).Success?
    ensures var (items, rest) := Select(toks).value;
            if toks == [] || !IsWord(toks[0], "SELECT") then rest == toks
            else if |toks| > 1 && toks[1] == Symbol('*') then rest == toks[2..]
            else items.Some? && SelectItems(toks[1..], []) == Success((items.value, rest))
  {
    if toks != [] && IsWord(toks[0], "SELECT") && !(|toks| > 1 && toks[1] == Symbol('*')) {
      var read := SelectItems(Rest(toks), []);
      assert read.Success?;
      assert Select(toks) == Success((Some(read.value.0), read.value.1));
    }
  }

  lemma SelectGoes(toks: seq<Grammar.Token>, k: nat) returns (st': State)
    requires Lexical(toks) && Select(toks).Success? && k <= |Select(toks).value.1|
    ensures var rest := Select(toks).value.1;
            && Read(toks, rest) && Lexical(rest) && Go(toks, k, START) == Go(rest, k, st')
    ensures st' == START.(mode := st'.mode)
  {
    SelectTokens(toks);
    st' := START;
    if toks != [] && IsWord(toks[0], "SELECT") {
      var (items, rest) := Select(toks).value;
      ReadOne(toks);
      LexicalRest(toks, toks[1..]);
      st' := START.(mode := InSelect);
      if |toks| > 1 && toks[1] == Symbol('*') {
        IdleGoes(toks[1..], k, st', 1);
      } else {
        ItemsGo(toks[1..], [], k, st', items.value, rest);
      }
      KeywordGoes(toks, k, START, 0);
      ReadTrans(toks, toks[1..], rest);
    }
  }

  // ---- The whole text ----

  lemma FinishTokens(
    items: Option<seq<Item>>, tables: seq<JoinTable>, joins: seq<JoinClause>, toks: seq<Grammar.Token>, opts: Options)
    requires Finish(items, tables, joins, toks, opts).Success?
    ensures joins != [] && Finish(items, tables, joins, toks, opts).value.tables == tables
    ensures var last := if toks != [] && toks[0] == Symbol(';') then toks[1..] else toks;
            last == [] || last[0] == End
  {
  }

  lemma StatementTokens(toks: seq<Grammar.Token>, opts: Options)
    requires Statement(toks, opts).Success?
    ensures toks != [] && Select(toks).Success?
    ensures var (items, afterSelect) := Select(toks).value;
            && afterSelect != [] && IsWord(afterSelect[0], "FROM")
            && Statement(toks, opts) == FromTable(items, afterSelect[1..], opts)
  {
  }

  lemma FromTableTokens(items: Option<seq<Item>>, toks: seq<Grammar.Token>, opts: Options)
    requires FromTable(items, toks, opts).Success?
    ensures TableRef(toks, [], opts).Success?
    ensures var (base, afterBase) := TableRef(toks, [], opts).value;
            && |base| == 1 && Clauses(afterBase, base, [], opts).Success?
            && var (tables, joins, rest) := Clauses(afterBase, base, [], opts).value;
               FromTable(items, toks, opts) == Finish(items, tables, joins, rest, opts)
  {
  }

  /** The tables after the start table, of which there is at least one: `rest` is what follows the clauses. */
  lemma JoinsGo(
    toks: seq<Grammar.Token>, before: seq<Grammar.Token>, base: seq<JoinTable>, opts: Options, k: nat, st: State,
    tables: seq<JoinTable>, joins: seq<JoinClause>, rest: seq<Grammar.Token>)
    returns (st': State)
    requires |base| == 1 && Clauses(toks, base, [], opts) == Success((tables, joins, rest)) && joins != []
    requires Lexical(toks) && st.mode != Start && st.AllDeclared() == DeclaredAs(base)
    requires k <= |rest| || k == |rest| + 3
    requires Read(before, toks)
    ensures Read(before, rest) && EndsInRef(before, |rest|)
    ensures k <= |rest| ==> st'.AllDeclared() == DeclaredAs(tables) && Go(toks, k, st) == Go(rest, k, st')
    ensures k == |rest| + 3 ==> Go(toks, k, st).AllDeclared() == DeclaredAs(tables)
  {
    ClausesTokens(toks, base, [], opts);
    st' := ClausesGo(toks, base, [], opts, k, st, tables, joins, rest);
    ReadTrans(before, toks, rest);
    EndsInRefBefore(before, toks, |rest|);
  }

  lemma TablesGo(
    toks: seq<Grammar.Token>, opts: Options, k: nat, st: State, base: seq<JoinTable>, afterBase: seq<Grammar.Token>,
    tables: seq<JoinTable>, joins: seq<JoinClause>, rest: seq<Grammar.Token>)
    returns (st': State)
    requires TableRef(toks, [], opts) == Success((base, afterBase)) && |base| == 1
    requires Clauses(afterBase, base, [], opts) == Success((tables, joins, rest)) && joins != []
    requires Lexical(toks) && st.mode == InTable && st.pending.None? && st.declared == []
    requires k <= |rest| || k == |rest| + 3
    ensures Read(toks, rest) && EndsInRef(toks, |rest|)
    ensures k <= |rest| ==> st'.AllDeclared() == DeclaredAs(tables) && Go(toks, k, st) == Go(rest, k, st')
    ensures k == |rest| + 3 ==> Go(toks, k, st).AllDeclared() == DeclaredAs(tables)
  {
    assert DeclaredAs([]) == [];
    st' := TableRefGoes(toks, [], opts, 0, st);
    var _ := JoinsGo(afterBase, afterBase, base, opts, |rest|, st', tables, joins, rest);
    st' := TableRefGoes(toks, [], opts, k, st);
    st' := JoinsGo(afterBase, toks, base, opts, k, st', tables, joins, rest);
  }

  /** The list ends at its only End, or where no token is. */
  predicate EndsOnce(toks: seq<Grammar.Token>) {
    && toks != [] && (toks[|toks| - 1].End? || toks[|toks| - 1].Bad?)
    && forall i :: 0 <= i < |toks| - 1 ==> toks[i] != End
  }

  lemma OneMore(t: Grammar.Token, toks: seq<Grammar.Token>)
    requires Lexical(toks) && EndsOnce(toks) && t != End && (t.Word? ==> Readable(t))
    ensures Lexical([t] + toks) && EndsOnce([t] + toks)
  {
  }

  lemma {:induction false} TokensAreLexical(s: string)
    ensures Lexical(Tokens(s)) && EndsOnce(Tokens(s))
    decreases |s|
  {
    var r := s[Span(CharClass.Space, s)..];
    if r != "" {
      var (tok, n) := LexToken(r);
      TokenIsReadable(r);
      if !tok.Bad? {
        TokensAreLexical(r[n..]);
        OneMore(tok, Tokens(r[n..]));
      }
    }
  }

  /** The parts of an accepted statement; `rest` is what follows the last clause. */
  datatype Parts = Parts(
    afterSelect: seq<Grammar.Token>, base: seq<JoinTable>, afterBase: seq<Grammar.Token>,
    tables: seq<JoinTable>, joins: seq<JoinClause>, rest: seq<Grammar.Token>)

  ghost predicate Splits(toks: seq<Grammar.Token>, opts: Options, p: Parts) {
    && Select(toks).Success? && Select(toks).value.1 == p.afterSelect
    && p.afterSelect != [] && IsWord(p.afterSelect[0], "FROM")
    && TableRef(p.afterSelect[1..], [], opts) == Success((p.base, p.afterBase)) && |p.base| == 1
    && Clauses(p.afterBase, p.base, [], opts) == Success((p.tables, p.joins, p.rest)) && p.joins != []
  }

  lemma StatementSplits(toks: seq<Grammar.Token>, opts: Options) returns (p: Parts)
    requires Statement(toks, opts).Success?
    ensures Splits(toks, opts, p) && p.tables == Statement(toks, opts).value.tables
    ensures var last := if p.rest != [] && p.rest[0] == Symbol(';') then p.rest[1..] else p.rest;
            last == [] || last[0] == End
  {
    StatementTokens(toks, opts);
    var (items, afterSelect) := Select(toks).value;
    FromTableTokens(items, afterSelect[1..], opts);
    var (base, afterBase) := TableRef(afterSelect[1..], [], opts).value;
    var (tables, joins, rest) := Clauses(afterBase, base, [], opts).value;
    FinishTokens(items, tables, joins, rest, opts);
    p := Parts(afterSelect, base, afterBase, tables, joins, rest);
  }

  /** The state from the start of a statement to the end of its last clause. */
  lemma StatementGoes(toks: seq<Grammar.Token>, opts: Options, k: nat, p: Parts) returns (st': State)
    requires Lexical(toks) && Splits(toks, opts, p)
    requires k <= |p.rest| || k == |p.rest| + 3
    ensures Read(toks, p.rest) && EndsInRef(toks, |p.rest|)
    ensures k <= |p.rest| ==> st'.AllDeclared() == DeclaredAs(p.tables) && Go(toks, k, START) == Go(p.rest, k, st')
    ensures k == |p.rest| + 3 ==> Go(toks, k, START).AllDeclared() == DeclaredAs(p.tables)
  {
    var afterFrom := p.afterSelect[1..];
    st' := SelectGoes(toks, 0);
    ReadOne(p.afterSelect);
    LexicalRest(p.afterSelect, afterFrom);
    var st := START.(mode := InTable, from := true);
    assert KeywordStep("FROM", st') == st;
    st' := TablesGo(afterFrom, opts, k, st, p.base, p.afterBase, p.tables, p.joins, p.rest);
    var selected := SelectGoes(toks, k);
    KeywordGoes(p.afterSelect, k, selected, 1);
    ReadTrans(toks, p.afterSelect, afterFrom);
    ReadTrans(toks, afterFrom, p.rest);
    EndsInRefBefore(toks, afterFrom, |p.rest|);
  }

  /** An accepted text ends after its last clause, or after one semicolon there. */
  lemma RestIs(toks: seq<Grammar.Token>, rest: seq<Grammar.Token>)
    requires Read(toks, rest) && EndsOnce(toks)
    requires var last := if rest != [] && rest[0] == Symbol(';') then rest[1..] else rest;
             last == [] || last[0] == End
    ensures AllRead(toks) && (rest == [End] || rest == [Symbol(';'), End])
  {
    var n := |toks| - |rest|;
    assert rest != [];
    assert forall i :: 0 <= i < |rest| ==> rest[i] == toks[n + i];
    if rest[0] == Symbol(';') {
      assert |rest| > 1;
      assert rest[1] == End && rest == [Symbol(';'), End];
    } else {
      assert rest == [End];
    }
  }

  lemma TypingAfterRef(words: seq<Scanner.Word>, afterSpace: bool)
    requires var n := |words|;
             n > 2 && words[n - 1].kind == Name && words[n - 2] == Scanner.Word(Punct, ".") && words[n - 3].kind == Name
    ensures TypingAt(words, afterSpace).before == if afterSpace then |words| else |words| - 3
  {
  }

  lemma TypingAfterSemicolon(words: seq<Scanner.Word>, afterSpace: bool)
    requires words != [] && words[|words| - 1] == Scanner.Word(Punct, ";")
    ensures TypingAt(words, afterSpace).before == |words|
  {
  }

  lemma LastWords(toks: seq<Grammar.Token>)
    requires EndsInRef(toks, 1) && Lexical(toks)
    ensures var words := WordsOf(toks, 1);
            var n := |words|;
            && n > 2 && words[n - 1].kind == Name && words[n - 2] == Scanner.Word(Punct, ".") && words[n - 3].kind == Name
  {
    var n := |WordsOf(toks, 1)|;
    WordsOfAt(toks, 1, n - 1);
    WordsOfAt(toks, 1, n - 2);
    WordsOfAt(toks, 1, n - 3);
    NameIsUnquoted(toks[n - 1]);
    NameIsUnquoted(toks[n - 3]);
  }

  lemma LastSemicolon(toks: seq<Grammar.Token>)
    requires |toks| > 1 && toks[|toks| - 2] == Symbol(';')
    ensures WordsOf(toks, 1)[|toks| - 2] == Scanner.Word(Punct, ";")
  {
    WordsOfAt(toks, 1, |toks| - 2);
  }

  /** How the words of an accepted text end decides what completion leaves out. */
  lemma AcceptedEnd(toks: seq<Grammar.Token>, rest: seq<Grammar.Token>, afterSpace: bool) returns (k: nat)
    requires rest == [End] || rest == [Symbol(';'), End]
    requires Read(toks, rest) && EndsInRef(toks, |rest|) && Lexical(toks)
    ensures 1 <= k <= |toks| && TypingAt(WordsOf(toks, 1), afterSpace).before == |toks| - k
    ensures k == 1 || k == |rest| + 3
  {
    if |rest| == 2 {
      assert toks[|toks| - 2] == rest[0];
      LastSemicolon(toks);
      TypingAfterSemicolon(WordsOf(toks, 1), afterSpace);
      k := 1;
    } else {
      LastWords(toks);
      TypingAfterRef(WordsOf(toks, 1), afterSpace);
      k := if afterSpace then 1 else 4;
    }
  }

  lemma GoesToEnd(rest: seq<Grammar.Token>, st: State)
    requires rest == [End] || rest == [Symbol(';'), End]
    ensures Go(rest, 1, st) == st
  {
    if |rest| == 2 {
      SymbolGoes(rest, 1, st);
    }
  }

  lemma SameRun(a: seq<Scanner.Word>, b: seq<Scanner.Word>, st: State)
    requires a == b
    ensures Run(a, st) == Run(b, st)
  {
  }

  /** Leaving out the last `k` tokens is leaving out the last words. */
  lemma GoIsRun(toks: seq<Grammar.Token>, k: nat, words: seq<Scanner.Word>, st: State)
    requires 1 <= k <= |toks| && words == WordsOf(toks, 1)[..|toks| - k]
    ensures Run(words, st) == Go(toks, k, st)
  {
    WordsOfPrefix(toks, 1, k);
    SameRun(words, WordsOf(toks, k), st);
  }

  /** The context of an accepted text is the state before the tokens left out. */
  lemma ContextGoes(text: string, toks: seq<Grammar.Token>, k: nat)
    requires Words(NextToken, text) == WordsOf(toks, 1) && 1 <= k <= |toks|
    requires TypingIn(NextToken, text).before == |toks| - k
    ensures Context(NextToken, text) == Go(toks, k, START)
  {
    ContextIs(NextToken, text, WordsOf(toks, 1)[..|toks| - k], START);
    GoIsRun(toks, k, WordsOf(toks, 1)[..|toks| - k], START);
  }

  lemma ContextIs(next: Lexer, text: string, words: seq<Scanner.Word>, st: State)
    requires words == Words(next, text)[..TypingIn(next, text).before] && st == START
    ensures Context(next, text) == Run(words, st)
  {
  }

  lemma StatementDeclares(toks: seq<Grammar.Token>, opts: Options, k: nat, p: Parts)
    requires Lexical(toks) && Splits(toks, opts, p) && (k == 1 || k == |p.rest| + 3)
    requires p.rest == [End] || p.rest == [Symbol(';'), End]
    ensures Go(toks, k, START).AllDeclared() == DeclaredAs(p.tables)
  {
    var st := StatementGoes(toks, opts, k, p);
    GoesToEnd(p.rest, st);
  }

  /** Every token of an accepted text but its end is one the grammar reads. */
  lemma AcceptedIsRead(text: string, opts: Options) returns (p: Parts)
    requires Parse(text, opts).Success?
    ensures AllRead(Tokens(text)) && Lexical(Tokens(text)) && Splits(Tokens(text), opts, p)
    ensures p.tables == Parse(text, opts).value.tables
    ensures Read(Tokens(text), p.rest) && EndsInRef(Tokens(text), |p.rest|)
    ensures p.rest == [End] || p.rest == [Symbol(';'), End]
  {
    TokensAreLexical(text);
    p := StatementSplits(Tokens(text), opts);
    var _ := StatementGoes(Tokens(text), opts, 0, p);
    RestIs(Tokens(text), p.rest);
  }

  /**
   * For every text the parser accepts, the completion scanner declares the
   * definition's tables, in order, under the names references use.
   */
  lemma DeclaredAgrees(text: string, opts: Options)
    requires Parse(text, opts).Success?
    ensures DeclaredIn(text) == DeclaredAs(Parse(text, opts).value.tables)
  {
    var toks := Tokens(text);
    var p := AcceptedIsRead(text, opts);
    WordsAgree(text);
    var k := AcceptedEnd(toks, p.rest, EndsInSpace(TokensFrom(NextToken, text, 0)));
    StatementDeclares(toks, opts, k, p);
    ContextGoes(text, toks, k);
  }
}

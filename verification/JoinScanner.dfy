/**
 * The lenient scanner of the join text field: its own lexer and its own state
 * machine say which tables the text declares and what may be typed next.
 */
module JoinScanner {
  import opened Outcomes
  import opened Text
  import Grammar = JoinGrammar

  datatype Kind = Keyword | Name | Punct | Space | Plain

  datatype Token = Token(kind: Kind, start: nat, end: nat)

  // ---- Lexer ----

  /** A token and its length. */
  datatype Lexed = Lexed(kind: Kind, length: nat)

  predicate IsRejected(upper: string) {
    Grammar.Listed(upper, Grammar.REJECTED) || upper == "OR"
  }

  function WordKind(word: string): (kind: Kind)
    ensures kind == Keyword || kind == Plain || kind == Name
  {
    if Grammar.Listed(Upper(word), Grammar.KEYWORDS) then Keyword else if IsRejected(Upper(word)) then Plain else Name
  }

  predicate IsPunct(c: char) {
    c == '.' || c == ',' || c == ';' || c == '*' || c == '='
  }

  /** The token at the start of `s`; a quoted name that never closes runs to the end. */
  function NextToken(s: string): (r: Lexed)
    ensures r.length <= |s|
    ensures s != "" ==> 0 < r.length
  {
    if s == "" || IsSpace(s[0]) then Lexed(Kind.Space, Span(CharClass.Space, s))
    else if s[0] == '"' then
      match ScanQuoted(s[1..], '"')
      case None => Lexed(Name, |s|)
      case Some((_, n)) => Lexed(Name, n + 1)
    else if IsNameStart(s[0]) then
      var n := 1 + Span(NameChar, s[1..]);
      Lexed(WordKind(s[..n]), n)
    else Lexed(if IsPunct(s[0]) then Punct else Plain, 1)
  }

  type Lexer = string -> Lexed

  ghost predicate Advances(next: Lexer) {
    forall s :: s != "" ==> 0 < next(s).length <= |s|
  }

  function TokensFrom(next: Lexer, text: string, i: nat): seq<Token>
    requires i <= |text|
    decreases |text| - i
  {
    if i == |text| then []
    else
      var t := next(text[i..]);
      var j := i + t.length;
      if !(i < j <= |text|) then [] else [Token(t.kind, i, j)] + TokensFrom(next, text, j)
  }

  method Tokenize(next: Lexer, text: string) returns (tokens: seq<Token>)
    requires Advances(next)
    ensures tokens == TokensFrom(next, text, 0)
  {
    tokens := [];
    var i := 0;
    while i < |text|
      invariant i <= |text| && TokensFrom(next, text, 0) == tokens + TokensFrom(next, text, i)
    {
      var start := i;
      var t := next(text[i..]);
      i := i + t.length;
      ConcatAssoc(tokens, [Token(t.kind, start, i)], TokensFrom(next, text, i));
      tokens := tokens + [Token(t.kind, start, i)];
    }
    assert tokens + [] == tokens;
  }

  /** Each token stands where the one before ends. */
  predicate Tile(tokens: seq<Token>, from: nat, to: nat) {
    if tokens == [] then from == to
    else tokens[0].start == from < tokens[0].end && Tile(tokens[1..], tokens[0].end, to)
  }

  lemma {:induction false} TokensTile(next: Lexer, text: string, i: nat)
    requires Advances(next) && i <= |text|
    ensures Tile(TokensFrom(next, text, i), i, |text|)
    decreases |text| - i
  {
    if i < |text| {
      TokensTile(next, text, i + next(text[i..]).length);
    }
  }

  /** Whatever the text, its tokens cover it without gap or overlap. */
  lemma TokensCoverText(text: string, from: nat)
    requires from == 0
    ensures Tile(TokensFrom(NextToken, text, from), 0, |text|)
  {
    NextTokenAdvances();
    TokensTile(NextToken, text, from);
  }

  // ---- Words ----

  /** A token that is no space, as written. */
  datatype Word = Word(kind: Kind, text: string)

  function Words(next: Lexer, s: string): seq<Word>
    decreases |s|
  {
    if s == "" then []
    else
      var t := next(s);
      var n := t.length;
      if !(0 < n <= |s|) then []
      else (if t.kind == Kind.Space then [] else [Word(t.kind, s[..n])]) + Words(next, s[n..])
  }

  /** The tokens of `text` that are no space, as written. */
  function Significant(tokens: seq<Token>, text: string): seq<Word> {
    if tokens == [] then []
    else
      var t := tokens[0];
      (if t.kind == Kind.Space || !(t.start <= t.end <= |text|) then [] else [Word(t.kind, text[t.start..t.end])])
      + Significant(tokens[1..], text)
  }

  lemma {:induction false} SignificantAreWords(next: Lexer, text: string, i: nat)
    requires i <= |text|
    ensures Significant(TokensFrom(next, text, i), text) == Words(next, text[i..])
    decreases |text| - i
  {
    if i < |text| {
      var j := i + next(text[i..]).length;
      if i < j <= |text| {
        SignificantAreWords(next, text, j);
        assert text[i..][j - i..] == text[j..] && text[i..][..j - i] == text[i..j];
      }
    }
  }

  /** Two quotes become one, from left to right. */
  function Undoubled(s: string): string {
    if |s| > 1 && s[0] == '"' && s[1] == '"' then "\"" + Undoubled(s[2..])
    else if s == "" then ""
    else [s[0]] + Undoubled(s[1..])
  }

  function Unquote(s: string): string {
    if s == "" || s[0] != '"' then s
    else Undoubled(if |s| > 1 && s[|s| - 1] == '"' then s[1..|s| - 1] else s[1..])
  }

  // ---- The state machine ----

  datatype Declared = Declared(name: string, table: string)

  datatype Mode = Start | InTable | AfterTable | InAlias | InColumn | AfterColumn | InSelect

  datatype Ref = Ref(qualifier: string, column: string)

  /** `from` tells FROM from JOIN; `refs` holds the references read since the last ON or AND. */
  datatype State = State(
    mode: Mode, from: bool, pending: Option<Declared>, declared: seq<Declared>, afterEq: bool, refs: seq<Ref>) {

    function Flushed(): State {
      if pending.Some? then this.(declared := AllDeclared(), pending := None) else this
    }

    /** The tables declared, the pending one included. */
    function AllDeclared(): seq<Declared> {
      declared + if pending.Some? then [pending.value] else []
    }
  }

  const START := State(Start, false, None, [], false, [])

  function KeywordStep(upper: string, st: State): State {
    if upper == "FROM" || upper == "JOIN" then st.Flushed().(mode := InTable, from := upper == "FROM")
    else if upper == "ON" || upper == "AND" then st.Flushed().(mode := InColumn, afterEq := false, refs := [])
    else if upper == "AS" then st.(mode := InAlias)
    else if upper == "SELECT" then st.(mode := InSelect)
    else if st.mode != Start then st.Flushed()
    else st
  }

  /** Whether `words` start with `name . name`. */
  predicate StartsDotted(words: seq<Word>) {
    && |words| > 2 && words[0].kind == Name
    && words[1].text != "" && words[1].text[0] == '.' && words[2].kind == Name
  }

  /** The state after the next word, or after the next three where they are a column reference. */
  function WordStep(words: seq<Word>, st: State): (State, seq<Word>)
    requires words != []
  {
    var w := words[0];
    if w.kind == Keyword then (KeywordStep(Upper(w.text), st), words[1..])
    else if w.kind == Name && st.mode == InTable then
      (st.(pending := Some(Declared(Unquote(w.text), Unquote(w.text))), mode := AfterTable), words[1..])
    else if w.kind == Name && (st.mode == AfterTable || st.mode == InAlias) then
      (st.(
         pending := if st.pending.Some? then Some(st.pending.value.(name := Unquote(w.text))) else None,
         mode := AfterTable),
       words[1..])
    else if st.mode == InColumn && StartsDotted(words) then
      (st.(refs := st.refs + [Ref(Unquote(w.text), Unquote(words[2].text))], mode := AfterColumn), words[3..])
    else if w == Word(Punct, "=") && st.mode == AfterColumn then
      (st.(mode := InColumn, afterEq := true), words[1..])
    else (st, words[1..])
  }

  function Run(words: seq<Word>, st: State): State
    decreases |words|
  {
    if words == [] then st
    else
      var (st', rest) := WordStep(words, st);
      Run(rest, st')
  }

  // ---- The word being typed ----

  /** A half-typed word, its qualifier, and how many words stand before both. */
  datatype Typing = Typing(before: nat, qualifier: Option<string>, partial: string)

  /** The last of `words`, with a dotted qualifier before it, unless a space follows them. */
  function TypingAt(words: seq<Word>, afterSpace: bool): (r: Typing)
    ensures r.before <= |words|
  {
    var n := |words|;
    if afterSpace || n == 0 then Typing(n, None, "")
    else
      var end := words[n - 1];
      if n > 1 && end.kind == Punct && end.text != "" && end.text[0] == '.' && words[n - 2].kind == Name then
        Typing(n - 2, Some(Unquote(words[n - 2].text)), "")
      else if n > 2 && end.kind == Name && words[n - 2].kind == Punct && words[n - 2].text != ""
              && words[n - 2].text[0] == '.' && words[n - 3].kind == Name then
        Typing(n - 3, Some(Unquote(words[n - 3].text)), end.text)
      else if end.kind == Name || end.kind == Keyword then Typing(n - 1, None, end.text)
      else Typing(n, None, "")
  }

  datatype Wanted = Table | Qualifier | Column | Keywords(words: seq<string>) | Nothing

  const JOIN_WORDS := ["JOIN", "INNER JOIN", "LEFT JOIN"]

  function WantedIn(st: State, typing: Typing): Wanted {
    if typing.qualifier.Some? then if st.mode == InColumn then Column else Nothing
    else if st.mode == InTable then Table
    else if st.mode == InColumn then Qualifier
    else if st.mode == AfterTable && typing.partial != "" then Keywords(if st.from then JOIN_WORDS else ["ON"])
    else if st.mode == AfterColumn && typing.partial != "" then Keywords(["AND"] + JOIN_WORDS)
    else Nothing
  }

  function OtherSide(st: State): Option<Ref> {
    if st.afterEq && st.refs != [] then Some(st.refs[|st.refs| - 1]) else None
  }

  datatype Completion = Completion(
    wanted: Wanted, partial: string, head: string, qualifier: Option<string>, declared: seq<Declared>,
    otherSide: Option<Ref>)

  predicate EndsInSpace(tokens: seq<Token>) {
    tokens != [] && tokens[|tokens| - 1].kind == Kind.Space
  }

  /** The state the words before the one being typed lead to. */
  function Context(next: Lexer, text: string): State {
    var words := Words(next, text);
    Run(words[..TypingIn(next, text).before], START)
  }

  function TypingIn(next: Lexer, text: string): (r: Typing)
    ensures r.before <= |Words(next, text)|
  {
    TypingAt(Words(next, text), EndsInSpace(TokensFrom(next, text, 0)))
  }

  /** The tables a text declares, as completion offers them. */
  function DeclaredIn(text: string): seq<Declared> {
    Context(NextToken, text).AllDeclared()
  }

  predicate EndsWith(text: string, end: string) {
    |end| <= |text| && text[|text| - |end|..] == end
  }

  /** A text that does not end in a space ends in its last word. */
  lemma {:induction false} LastWordEnds(next: Lexer, text: string, i: nat)
    requires Advances(next) && i < |text|
    ensures var tokens := TokensFrom(next, text, i);
            var words := Words(next, text[i..]);
            && tokens != []
            && (EndsInSpace(tokens) || (words != [] && EndsWith(text, words[|words| - 1].text)))
    decreases |text| - i
  {
    var t := next(text[i..]);
    var j := i + t.length;
    var tokens, later := TokensFrom(next, text, i), TokensFrom(next, text, j);
    assert text[i..][t.length..] == text[j..] && text[i..][..t.length] == text[i..j];
    assert tokens == [Token(t.kind, i, j)] + later;
    if j < |text| {
      LastWordEnds(next, text, j);
      assert tokens[|tokens| - 1] == later[|later| - 1];
    }
  }

  lemma PartialEnds(next: Lexer, text: string)
    requires Advances(next)
    ensures EndsWith(text, TypingIn(next, text).partial)
  {
    if text != "" {
      LastWordEnds(next, text, 0);
      assert text[0..] == text;
    }
    assert text[|text|..] == "";
  }

  lemma NextTokenAdvances()
    ensures Advances(NextToken)
  {
  }

  method RunMachine(words: seq<Word>) returns (st: State)
    ensures st == Run(words, START)
  {
    st := START;
    var k := 0;
    assert words[0..] == words;
    while k < |words|
      invariant k <= |words| && Run(words[k..], st) == Run(words, START)
    {
      var (st', rest) := WordStep(words[k..], st);
      var n := |words| - |rest|;
      assert rest == words[n..];
      st, k := st', n;
    }
  }

  /** What may be typed at the end of a text, for any lexer. */
  method Complete(next: Lexer, text: string) returns (r: Completion)
    requires Advances(next)
    ensures r.head + r.partial == text
    ensures r.declared == Context(next, text).AllDeclared()
    ensures r.wanted == WantedIn(Context(next, text), TypingIn(next, text))
    ensures r.qualifier == TypingIn(next, text).qualifier && r.partial == TypingIn(next, text).partial
    ensures r.otherSide == OtherSide(Context(next, text))
  {
    var tokens := Tokenize(next, text);
    var words := Significant(tokens, text);
    SignificantAreWords(next, text, 0);
    assert text[0..] == text;
    var typing := TypingAt(words, EndsInSpace(tokens));
    assert typing == TypingIn(next, text);
    PartialEnds(next, text);
    var st := RunMachine(words[..typing.before]);
    return Completion(
        WantedIn(st, typing), typing.partial, text[..|text| - |typing.partial|], typing.qualifier,
        st.Flushed().declared, OtherSide(st));
  }

  method JoinCompletionAt(text: string) returns (r: Completion)
    ensures r.head + r.partial == text
    ensures r.declared == DeclaredIn(text)
    ensures r.wanted == WantedIn(Context(NextToken, text), TypingIn(NextToken, text))
    ensures r.qualifier == TypingIn(NextToken, text).qualifier && r.partial == TypingIn(NextToken, text).partial
    ensures r.otherSide == OtherSide(Context(NextToken, text))
  {
    NextTokenAdvances();
    r := Complete(NextToken, text);
  }
}

/** A total tokenizer of filter text: its tokens, and the state that says what the next one may be. */
module FilterTokens {
  import opened Outcomes
  import opened Text
  import opened FilterDsl

  datatype Kind = ColumnTok | OpTok | ValueTok | KeywordTok | BlankTok | PlainTok

  /** The tokenizer's state: the kind of word that would keep the text a filter; `Nothing` when none would. */
  datatype Wanted = WantColumn | WantOperator | WantNull | WantValue | WantJoiner | Nothing

  /** A span of the text, with the tokenizer's state just before it. */
  datatype Token = Token(kind: Kind, start: nat, end: nat, wanted: Wanted, column: Option<string>)

  datatype Tokenized = Tokenized(tokens: seq<Token>, wanted: Wanted, column: Option<string>)

  // ---- Words ----

  /** Upper case as ECMAScript has it, as far as the letters of the keywords go. */
  function LooseUpper(c: char): char {
    if c == '\U{131}' then 'I' else if c == '\U{17F}' then 'S' else UpperAscii(c)
  }

  /** The boundary test looks at one UTF-16 unit, so a letter outside the BMP does not count. */
  predicate IsWordUnit(c: char) {
    IsWordChar(c) && c < '\U{10000}'
  }

  predicate LooseKeywordAt(keyword: string, s: string) {
    && |keyword| <= |s|
    && (forall i :: 0 <= i < |keyword| ==> LooseUpper(s[i]) == keyword[i])
    && (|s| == |keyword| || !IsWordUnit(s[|keyword|]))
  }

  /** A column with an optional qualifier; the dot may come with no name after it yet. */
  function IdentLength(s: string): (r: Option<nat>)
    requires s != ""
    ensures r.Some? ==> 0 < r.value <= |s|
  {
    if s[0] == '"' then
      match ScanQuoted(s[1..], '"')
      case None => None
      case Some((name, n)) =>
        if name == "" || !StartsWith(s[n + 1..], '.') then None else Some(n + 2 + Span(NameChar, s[n + 2..]))
    else if IsNameStart(s[0]) then
      var n := 1 + Span(NameChar, s[1..]);
      if StartsWith(s[n..], '.') then Some(n + 1 + Span(NameChar, s[n + 1..])) else Some(n)
    else None
  }

  function SymbolLength(s: string): (n: nat)
    ensures n <= |s|
  {
    if |s| > 1 && s[1] == '=' && (s[0] == '>' || s[0] == '<' || s[0] == '!') then 2
    else if s != "" && (s[0] == '>' || s[0] == '<' || s[0] == '=') then 1
    else 0
  }

  function OperatorLength(s: string): (n: nat)
    ensures n <= |s|
  {
    if LooseKeywordAt("ILIKE", s) then 5 else if LooseKeywordAt("LIKE", s) then 4 else SymbolLength(s)
  }

  /** Length of a quoted value; all of `s` when its quote never closes. */
  function ValueLength(s: string): (n: nat)
    requires s != "" && !IsSpace(s[0])
    ensures 0 < n <= |s|
  {
    if s[0] == '\'' then
      match ScanQuoted(s[1..], '\'')
      case None => |s|
      case Some((_, n)) => n + 1
    else Span(BareValueChar, s)
  }

  // ---- One token ----

  datatype Step = Step(kind: Kind, length: nat, wanted: Wanted)

  /** The word at the start of `s` and what is wanted after it. */
  function NextWord(s: string, wanted: Wanted): (r: Step)
    requires s != "" && !IsSpace(s[0])
    ensures 0 < r.length <= |s|
  {
    var plain := Step(PlainTok, Span(NotSpace, s), Nothing);
    match wanted
    case WantColumn =>
      if LooseKeywordAt("NOT", s) then Step(KeywordTok, 3, WantColumn)
      else if IdentLength(s).Some? then Step(ColumnTok, IdentLength(s).value, WantOperator)
      else plain
    case WantOperator =>
      if LooseKeywordAt("IS", s) then Step(KeywordTok, 2, WantNull)
      else if OperatorLength(s) > 0 then Step(OpTok, OperatorLength(s), WantValue)
      else plain
    case WantNull =>
      if LooseKeywordAt("NOT", s) then Step(KeywordTok, 3, WantNull)
      else if LooseKeywordAt("NULL", s) then Step(KeywordTok, 4, WantJoiner)
      else plain
    case WantValue => Step(ValueTok, ValueLength(s), WantJoiner)
    case WantJoiner =>
      if LooseKeywordAt("AND", s) then Step(KeywordTok, 3, WantColumn)
      else if LooseKeywordAt("OR", s) then Step(KeywordTok, 2, WantColumn)
      else plain
    case Nothing => plain
  }

  /** The token at the start of `s`: a run of space changes nothing else. */
  function NextToken(s: string, wanted: Wanted): (r: Step)
    ensures r.length <= |s|
    ensures s != "" ==> 0 < r.length
  {
    if s == "" || IsSpace(s[0]) then Step(BlankTok, Span(Space, s), wanted) else NextWord(s, wanted)
  }

  /** The column being filtered on, after a token of text `lexeme`. */
  function NextColumn(step: Step, was: Wanted, lexeme: string, column: Option<string>): Option<string> {
    if step.kind == ColumnTok then Some(lexeme)
    else if was == WantJoiner && step.kind == KeywordTok then None
    else column
  }

  // ---- The whole text ----

  function Prepend(t: Token, rest: Tokenized): Tokenized {
    rest.(tokens := [t] + rest.tokens)
  }

  /** What recognises one token. */
  type Lexer = (string, Wanted) -> Step

  /** The tokens `next` finds in `text` from character `i` on. */
  function TokenizeFrom(next: Lexer, text: string, i: nat, wanted: Wanted, column: Option<string>): Tokenized
    requires i <= |text|
    decreases |text| - i
  {
    if i == |text| then Tokenized([], wanted, column)
    else
      var step := next(text[i..], wanted);
      var j := i + step.length;
      if !(i < j <= |text|) then Tokenized([], wanted, column)
      else
        Prepend(
          Token(step.kind, i, j, wanted, column),
          TokenizeFrom(next, text, j, step.wanted, NextColumn(step, wanted, text[i..j], column)))
  }

  function Tokenize(text: string): Tokenized {
    TokenizeFrom(NextToken, text, 0, WantColumn, None)
  }

  /** A lexer that always finds a token. */
  ghost predicate Advances(next: Lexer) {
    forall s, wanted :: s != "" ==> 0 < next(s, wanted).length <= |s|
  }

  /** The tokenizer's loop from character `i` on. */
  function TokenizeLoop(
    next: Lexer, text: string, i: nat, wanted: Wanted, column: Option<string>, tokens: seq<Token>): Tokenized
    requires i <= |text|
    decreases |text| - i
  {
    if i == |text| then Tokenized(tokens, wanted, column)
    else
      var step := next(text[i..], wanted);
      var j := i + step.length;
      if !(i < j <= |text|) then Tokenized(tokens, wanted, column)
      else
        TokenizeLoop(
          next, text, j, step.wanted, NextColumn(step, wanted, text[i..j], column),
          tokens + [Token(step.kind, i, j, wanted, column)])
  }

  lemma {:induction false} TokenizeLoopIs(
    next: Lexer, text: string, i: nat, wanted: Wanted, column: Option<string>, tokens: seq<Token>)
    requires i <= |text|
    ensures var rest := TokenizeFrom(next, text, i, wanted, column);
            TokenizeLoop(next, text, i, wanted, column, tokens) == rest.(tokens := tokens + rest.tokens)
    decreases |text| - i
  {
    if i == |text| {
      assert tokens + [] == tokens;
    } else {
      var step := next(text[i..], wanted);
      var j := i + step.length;
      if i < j <= |text| {
        var t, column' := Token(step.kind, i, j, wanted, column), NextColumn(step, wanted, text[i..j], column);
        TokenizeLoopIs(next, text, j, step.wanted, column', tokens + [t]);
        MoreTokens(tokens, t, TokenizeFrom(next, text, j, step.wanted, column'));
      } else {
        assert tokens + [] == tokens;
      }
    }
  }

  lemma MoreTokens(tokens: seq<Token>, t: Token, rest: Tokenized)
    ensures tokens + Prepend(t, rest).tokens == tokens + [t] + rest.tokens
  {
  }

  /** The tokenizer as it runs. */
  method RunTokenizer(next: Lexer, text: string) returns (r: Tokenized)
    requires Advances(next)
    ensures r == TokenizeFrom(next, text, 0, WantColumn, None)
  {
    var tokens: seq<Token> := [];
    var wanted, column: Option<string>, i := WantColumn, None, 0;
    TokenizeLoopIs(next, text, 0, WantColumn, None, []);
    ghost var answer := TokenizeLoop(next, text, 0, WantColumn, None, []);
    assert answer.tokens == [] + TokenizeFrom(next, text, 0, WantColumn, None).tokens;
    while i < |text|
      invariant i <= |text| && answer == TokenizeLoop(next, text, i, wanted, column, tokens)
    {
      var was, start := wanted, i;
      var step := next(text[i..], wanted);
      i := i + step.length;
      tokens := tokens + [Token(step.kind, start, i, wanted, column)];
      wanted := step.wanted;
      if step.kind == ColumnTok {
        column := Some(text[start..i]);
      } else if was == WantJoiner && step.kind == KeywordTok {
        column := None;
      }
    }
    return Tokenized(tokens, wanted, column);
  }

  method TokenizeFilter(text: string) returns (r: Tokenized)
    ensures r == Tokenize(text)
  {
    r := RunTokenizer(NextToken, text);
  }

  // ---- Tokens cover the text ----

  /** Each token starts where the one before it ends, from `from` to `to`, and none is empty. */
  predicate Tile(tokens: seq<Token>, from: nat, to: nat) {
    if tokens == [] then from == to
    else tokens[0].start == from < tokens[0].end && Tile(tokens[1..], tokens[0].end, to)
  }

  lemma {:induction false} TokensTile(next: Lexer, text: string, i: nat, wanted: Wanted, column: Option<string>)
    requires Advances(next) && i <= |text|
    ensures Tile(TokenizeFrom(next, text, i, wanted, column).tokens, i, |text|)
    decreases |text| - i
  {
    if i < |text| {
      var step := next(text[i..], wanted);
      var j := i + step.length;
      TokensTile(next, text, j, step.wanted, NextColumn(step, wanted, text[i..j], column));
    }
  }

  /** Whatever the text, its tokens cover it without gap or overlap, and each stands where the one before ends. */
  lemma TokensCoverText(text: string)
    ensures Tile(Tokenize(text).tokens, 0, |text|)
  {
    TokensTile(NextToken, text, 0, WantColumn, None);
  }

  lemma {:induction false} LastEnds(tokens: seq<Token>, from: nat, to: nat)
    requires Tile(tokens, from, to) && tokens != []
    ensures from <= tokens[|tokens| - 1].start < tokens[|tokens| - 1].end == to
  {
    if |tokens| > 1 {
      LastEnds(tokens[1..], tokens[0].end, to);
    }
  }

  datatype Completion = Completion(wanted: Wanted, partial: string, head: string, column: Option<string>)

  /**
   * Splits the text before its last token, or at its end when that is a space,
   * and returns the tokenizer's state at the split.
   */
  method CompletionAt(text: string) returns (r: Completion)
    ensures r.head + r.partial == text
    ensures var all := Tokenize(text);
            if all.tokens == [] || all.tokens[|all.tokens| - 1].kind == BlankTok then
              r.partial == "" && r.wanted == all.wanted && r.column == all.column
            else
              var last := all.tokens[|all.tokens| - 1];
              0 < |r.partial| == last.end - last.start && r.wanted == last.wanted && r.column == last.column
  {
    var all := TokenizeFilter(text);
    TokensCoverText(text);
    if all.tokens == [] || all.tokens[|all.tokens| - 1].kind == BlankTok {
      return Completion(all.wanted, "", text, all.column);
    }
    LastEnds(all.tokens, 0, |text|);
    var last := all.tokens[|all.tokens| - 1];
    return Completion(last.wanted, text[last.start..], text[..last.start], last.column);
  }
}

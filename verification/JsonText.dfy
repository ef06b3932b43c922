/** Re-laying out JSON text: only insignificant whitespace changes. */
module JsonText {
  import opened Outcomes
  import opened Text

  predicate IsJsonSpace(c: char) {
    c == ' ' || c == '\t' || c == '\n' || c == '\r'
  }

  // ---- Significant text ----

  datatype Where = Outside | InString | AfterBackslash

  /** The text without the whitespace outside its strings; a string that never closes runs to the end. */
  function Strip(s: string, at: Where): string {
    if s == "" then ""
    else
      match at
      case AfterBackslash => [s[0]] + Strip(s[1..], InString)
      case InString =>
        [s[0]] + Strip(s[1..], if s[0] == '"' then Outside else if s[0] == '\\' then AfterBackslash else InString)
      case Outside =>
        if IsJsonSpace(s[0]) then Strip(s[1..], Outside)
        else [s[0]] + Strip(s[1..], if s[0] == '"' then InString else Outside)
  }

  // ---- Tokens ----

  /** Where the string that opens `s` ends, scanning from `j`. */
  function StringEnd(s: string, j: nat): (n: nat)
    requires s != ""
    ensures n <= |s| && (j > 0 ==> n > 0)
    decreases |s| - j
  {
    if j >= |s| then |s| else if s[j] == '"' then j + 1 else StringEnd(s, j + if s[j] == '\\' then 2 else 1)
  }

  /** The length of the token at the start of `s`. */
  function TokenLength(s: string): (n: nat)
    requires s != ""
    ensures 0 < n <= |s|
  {
    if s[0] == '"' then StringEnd(s, 1) else 1
  }

  /** Strings whole, any other character by itself, and no whitespace. */
  function Lex(s: string): seq<string> {
    if s == "" then []
    else if IsJsonSpace(s[0]) then Lex(s[1..])
    else [s[..TokenLength(s)]] + Lex(s[TokenLength(s)..])
  }

  function Joined(tokens: seq<string>): string {
    if tokens == [] then "" else tokens[0] + Joined(tokens[1..])
  }

  // ---- Layout ----

  function Spaces(n: nat): (s: string)
    ensures |s| == n && forall i :: 0 <= i < n ==> s[i] == ' '
  {
    seq(n, _ => ' ')
  }

  function NewLine(level: int): string {
    "\n" + Spaces(if level > 0 then 2 * level else 0)
  }

  function Closing(open: string): string {
    if open == "{" then "}" else "]"
  }

  /** The layout of the tokens, at a nesting level that stray brackets can take below zero. */
  function Layout(tokens: seq<string>, level: int): string {
    if tokens == [] then ""
    else
      var t := tokens[0];
      if t == "{" || t == "[" then
        if |tokens| > 1 && tokens[1] == Closing(t) then t + Closing(t) + Layout(tokens[2..], level)
        else t + NewLine(level + 1) + Layout(tokens[1..], level + 1)
      else if t == "}" || t == "]" then NewLine(level - 1) + t + Layout(tokens[1..], level - 1)
      else if t == "," then "," + NewLine(level) + Layout(tokens[1..], level)
      else if t == ":" then ": " + Layout(tokens[1..], level)
      else t + Layout(tokens[1..], level)
  }

  // ---- Lexing what was laid out ----

  /** A token that ends where it ends, whatever follows. */
  predicate Closed(t: string) {
    && t != "" && !IsJsonSpace(t[0])
    && if t[0] == '"' then |t| > 1 && ClosesAt(t, 1) else |t| == 1
  }

  /** Scanning the string from `j` closes it with its last character. */
  predicate ClosesAt(t: string, j: nat)
    decreases |t| - j
  {
    && j < |t|
    && if t[j] == '"' then j + 1 == |t| else ClosesAt(t, j + if t[j] == '\\' then 2 else 1)
  }

  /** An open string: it runs to the end of the text, so it is the last token. */
  predicate Open(t: string) {
    t != "" && t[0] == '"' && StringEnd(t, 1) == |t|
  }

  predicate Lexed(tokens: seq<string>) {
    tokens != [] ==> if |tokens| == 1 then Closed(tokens[0]) || Open(tokens[0]) else Closed(tokens[0]) && Lexed(tokens[1..])
  }

  lemma {:induction false} ClosedThen(t: string, j: nat, rest: string)
    requires t != "" && ClosesAt(t, j)
    ensures StringEnd(t + rest, j) == |t|
    decreases |t| - j
  {
    assert (t + rest)[j] == t[j];
    if t[j] != '"' {
      ClosedThen(t, j + if t[j] == '\\' then 2 else 1, rest);
    }
  }

  lemma LexClosed(t: string, rest: string)
    requires Closed(t)
    ensures Lex(t + rest) == [t] + Lex(rest)
  {
    if t[0] == '"' {
      ClosedThen(t, 1, rest);
    }
    assert (t + rest)[..|t|] == t && (t + rest)[|t|..] == rest;
  }

  lemma {:induction false} LexSpaces(spaces: string, rest: string)
    requires forall i :: 0 <= i < |spaces| ==> IsJsonSpace(spaces[i])
    ensures Lex(spaces + rest) == Lex(rest)
  {
    if spaces == "" {
      assert spaces + rest == rest;
    } else {
      assert (spaces + rest)[1..] == spaces[1..] + rest;
      LexSpaces(spaces[1..], rest);
    }
  }

  lemma LexOpen(t: string)
    requires Open(t)
    ensures Lex(t) == [t]
  {
    assert t[..|t|] == t && t[|t|..] == "";
  }

  lemma LexSpaced(t: string, spaces: string, rest: string)
    requires Closed(t) && forall i :: 0 <= i < |spaces| ==> IsJsonSpace(spaces[i])
    ensures Lex(t + spaces + rest) == [t] + Lex(rest)
  {
    assert t + spaces + rest == t + (spaces + rest);
    LexClosed(t, spaces + rest);
    LexSpaces(spaces, rest);
  }

  /** Brackets with nothing between them stay together. */
  lemma LexPair(t: string, rest: string)
    requires t == "{" || t == "["
    ensures Lex(t + Closing(t) + rest) == [t, Closing(t)] + Lex(rest)
  {
    assert t + Closing(t) + rest == t + (Closing(t) + rest);
    LexClosed(Closing(t), rest);
    LexClosed(t, Closing(t) + rest);
  }

  lemma LexIndented(spaces: string, t: string, rest: string)
    requires Closed(t) && forall i :: 0 <= i < |spaces| ==> IsJsonSpace(spaces[i])
    ensures Lex(spaces + t + rest) == [t] + Lex(rest)
  {
    assert spaces + t + rest == spaces + (t + rest);
    LexClosed(t, rest);
    LexSpaces(spaces, t + rest);
  }

  /** A token laid out as itself. */
  lemma LexPlain(t: string, rest: string)
    requires Closed(t) || (Open(t) && rest == "")
    ensures Lex(t + rest) == [t] + Lex(rest)
  {
    if Closed(t) {
      LexClosed(t, rest);
    } else {
      assert t + "" == t;
      LexOpen(t);
    }
  }

  predicate Opens(tokens: seq<string>) {
    tokens != [] && (tokens[0] == "{" || tokens[0] == "[")
  }

  predicate OpensEmpty(tokens: seq<string>) {
    Opens(tokens) && |tokens| > 1 && tokens[1] == Closing(tokens[0])
  }

  /** How many tokens the first step lays out, and the level after it. */
  function Step(tokens: seq<string>, level: int): (nat, int)
    requires tokens != []
  {
    if OpensEmpty(tokens) then (2, level)
    else if Opens(tokens) then (1, level + 1)
    else if tokens[0] == "}" || tokens[0] == "]" then (1, level - 1)
    else (1, level)
  }

  lemma LexStep(tokens: seq<string>, level: int)
    requires tokens != [] && Lexed(tokens)
    ensures var (n, level') := Step(tokens, level);
            && n <= |tokens| && Lexed(tokens[n..])
            && Lex(Layout(tokens, level)) == tokens[..n] + Lex(Layout(tokens[n..], level'))
  {
    var t := tokens[0];
    var (n, level') := Step(tokens, level);
    var rest := Layout(tokens[n..], level');
    if OpensEmpty(tokens) {
      LexPair(t, rest);
      assert tokens[..2] == [t, Closing(t)];
    } else {
      assert tokens[..1] == [t];
      if Opens(tokens) {
        LexSpaced(t, NewLine(level + 1), rest);
      } else if t == "}" || t == "]" {
        LexIndented(NewLine(level - 1), t, rest);
      } else if t == "," {
        LexSpaced(t, NewLine(level), rest);
      } else if t == ":" {
        LexSpaced(":", " ", rest);
        assert ": " == ":" + " ";
      } else {
        LexPlain(t, rest);
      }
    }
  }

  /** Laying tokens out and lexing the layout gives the tokens back. */
  lemma {:induction false} LexLayout(tokens: seq<string>, level: int)
    requires Lexed(tokens)
    ensures Lex(Layout(tokens, level)) == tokens
    decreases |tokens|
  {
    if tokens != [] {
      var (n, level') := Step(tokens, level);
      LexStep(tokens, level);
      LexLayout(tokens[n..], level');
      assert tokens[..n] + tokens[n..] == tokens;
    }
  }

  // ---- What lexing gives ----

  lemma {:induction false} ScannedString(s: string, j: nat)
    requires s != "" && s[0] == '"' && 1 <= j
    ensures var n := StringEnd(s, j); n < |s| ==> ClosesAt(s[..n], j)
    ensures var n := StringEnd(s, j); n == |s| ==> StringEnd(s[..n], j) == n
    decreases |s| - j
  {
    if j < |s| && s[j] != '"' {
      ScannedString(s, j + if s[j] == '\\' then 2 else 1);
    }
    assert s[..|s|] == s;
  }

  lemma {:induction false} LexIsLexed(s: string)
    ensures Lexed(Lex(s))
  {
    if s != "" {
      if IsJsonSpace(s[0]) {
        LexIsLexed(s[1..]);
      } else {
        var n := TokenLength(s);
        LexIsLexed(s[n..]);
        if s[0] == '"' {
          ScannedString(s, 1);
        }
        assert n == |s| ==> Lex(s[n..]) == [];
      }
    }
  }

  // ---- Strip and Lex ----

  /** The state after a character inside a string. */
  function Within(c: char, at: Where): Where {
    if at.AfterBackslash? then InString
    else if c == '"' then Outside
    else if c == '\\' then AfterBackslash
    else InString
  }

  /** A character inside a string stays, before what the rest keeps. */
  lemma StripOne(s: string, j: nat, n: nat, at: Where)
    requires j < n <= |s| && !at.Outside?
    requires Strip(s[j + 1..], Within(s[j], at)) == s[j + 1..n] + Strip(s[n..], Outside)
    ensures Strip(s[j..], at) == s[j..n] + Strip(s[n..], Outside)
  {
    assert s[j..][1..] == s[j + 1..];
    assert s[j..n] == [s[j]] + s[j + 1..n];
    ConcatAssoc([s[j]], s[j + 1..n], Strip(s[n..], Outside));
  }

  lemma {:induction false} StripString(s: string, j: nat)
    requires s != "" && s[0] == '"' && 1 <= j <= |s|
    ensures var n := StringEnd(s, j); j <= n && Strip(s[j..], InString) == s[j..n] + Strip(s[n..], Outside)
    decreases |s| - j
  {
    var n := StringEnd(s, j);
    if j < |s| {
      if s[j] == '"' {
        Nothing(s, n, Outside);
      } else if s[j] == '\\' {
        if j + 1 < |s| {
          StripString(s, j + 2);
          StripOne(s, j + 1, n, AfterBackslash);
        } else {
          assert StringEnd(s, j + 2) == |s|;
          Nothing(s, n, AfterBackslash);
        }
      } else {
        StripString(s, j + 1);
      }
      StripOne(s, j, n, InString);
    }
  }

  lemma Nothing(s: string, n: nat, at: Where)
    requires n <= |s| && (at.Outside? || n == |s|)
    ensures Strip(s[n..], at) == s[n..n] + Strip(s[n..], Outside)
  {
    assert s[n..n] == "";
    assert "" + Strip(s[n..], Outside) == Strip(s[n..], Outside);
  }

  /** The stripped text is the tokens put together. */
  lemma {:induction false} StripIsJoined(s: string)
    ensures Strip(s, Outside) == Joined(Lex(s))
  {
    if s != "" {
      if IsJsonSpace(s[0]) {
        StripIsJoined(s[1..]);
      } else {
        var n := TokenLength(s);
        StripIsJoined(s[n..]);
        if s[0] == '"' {
          StripString(s, 1);
          assert s[..n] == [s[0]] + s[1..n];
        } else {
          assert s[..1] == [s[0]];
        }
      }
    }
  }

  lemma {:induction false} LexJoined(tokens: seq<string>)
    requires Lexed(tokens)
    ensures Lex(Joined(tokens)) == tokens
  {
    if tokens != [] {
      LexJoined(tokens[1..]);
      LexPlain(tokens[0], Joined(tokens[1..]));
    }
  }

  // ---- What re-layout does ----

  function Reindent(text: string, depth: int): string {
    Layout(Lex(text), depth)
  }

  /** Only whitespace outside strings changes. */
  lemma SameText(text: string, depth: int)
    ensures Strip(Reindent(text, depth), Outside) == Strip(text, Outside)
  {
    LexIsLexed(text);
    LexLayout(Lex(text), depth);
    StripIsJoined(Reindent(text, depth));
    StripIsJoined(text);
  }

  /** Two texts are laid out alike exactly when they differ in nothing but such whitespace. */
  lemma LayoutIsCanonical(a: string, b: string, depth: int)
    ensures Reindent(a, depth) == Reindent(b, depth) <==> Strip(a, Outside) == Strip(b, Outside)
  {
    SameText(a, depth);
    SameText(b, depth);
    LexIsLexed(a);
    LexIsLexed(b);
    StripIsJoined(a);
    StripIsJoined(b);
    LexJoined(Lex(a));
    LexJoined(Lex(b));
  }

  /** Laying out again changes nothing. */
  lemma Idempotent(text: string, depth: int)
    ensures Reindent(Reindent(text, depth), depth) == Reindent(text, depth)
  {
    SameText(text, depth);
    LayoutIsCanonical(Reindent(text, depth), text, depth);
  }

  // ---- The scan ----

  lemma LexAt(text: string, i: nat)
    requires i < |text| && !IsJsonSpace(text[i])
    ensures var n := TokenLength(text[i..]);
            Lex(text[i..]) == [text[i..i + n]] + Lex(text[i + n..])
  {
    var n := TokenLength(text[i..]);
    assert text[i..][..n] == text[i..i + n] && text[i..][n..] == text[i + n..];
  }

  lemma LexSkips(text: string, i: nat, j: nat)
    requires i <= j <= |text| && forall k :: i <= k < j ==> IsJsonSpace(text[k])
    ensures Lex(text[i..]) == Lex(text[j..])
  {
    assert text[i..] == text[i..j] + text[j..];
    LexSpaces(text[i..j], text[j..]);
  }

  /** The end of the string that opens at `i`. */
  method ScanString(text: string, i: nat) returns (end: nat)
    requires i < |text| && text[i] == '"'
    ensures end == i + TokenLength(text[i..])
  {
    var j := i + 1;
    ghost var s := text[i..];
    while j < |text| && text[j] != '"'
      invariant i < j && StringEnd(s, j - i) == StringEnd(s, 1)
      decreases |text| - j
    {
      assert s[j - i] == text[j];
      j := j + if text[j] == '\\' then 2 else 1;
    }
    end := if j + 1 < |text| then j + 1 else |text|;
  }

  method SkipSpaces(text: string, i: nat) returns (j: nat)
    requires i <= |text|
    ensures i <= j <= |text| && Lex(text[i..]) == Lex(text[j..])
    ensures j < |text| ==> !IsJsonSpace(text[j])
  {
    j := i;
    while j < |text| && IsJsonSpace(text[j])
      invariant i <= j <= |text| && forall k :: i <= k < j ==> IsJsonSpace(text[k])
    {
      j := j + 1;
    }
    LexSkips(text, i, j);
  }

  lemma LayoutPair(t: string, rest: seq<string>, level: int)
    requires t == "{" || t == "["
    ensures Layout([t, Closing(t)] + rest, level) == t + Closing(t) + Layout(rest, level)
  {
    assert ([t, Closing(t)] + rest)[2..] == rest;
  }

  lemma LayoutOpening(t: string, rest: seq<string>, level: int)
    requires t == "{" || t == "["
    requires rest != [] ==> rest[0] != Closing(t)
    ensures Layout([t] + rest, level) == t + NewLine(level + 1) + Layout(rest, level + 1)
  {
    assert ([t] + rest)[1..] == rest;
  }

  /** The first token from `j` on is the closing bracket only where that character stands. */
  lemma FirstToken(text: string, j: nat, close: char)
    requires j <= |text| && (j < |text| ==> !IsJsonSpace(text[j])) && close != '"' && !IsJsonSpace(close)
    ensures var tokens := Lex(text[j..]);
            if j < |text| && text[j] == close then tokens == [[close]] + Lex(text[j + 1..])
            else tokens != [] ==> tokens[0] != [close]
  {
    if j < |text| {
      LexAt(text, j);
      var n := TokenLength(text[j..]);
      assert text[j..j + n][0] == text[j];
      if text[j] == close {
        assert text[j..j + 1] == [close];
      }
    }
  }

  function ClosingChar(open: char): char {
    if open == '{' then '}' else ']'
  }

  lemma LexOpening(text: string, i: nat)
    requires i < |text| && (text[i] == '{' || text[i] == '[')
    ensures Lex(text[i..]) == [[text[i]]] + Lex(text[i + 1..]) && Closing([text[i]]) == [ClosingChar(text[i])]
  {
    LexAt(text, i);
    assert text[i..i + 1] == [text[i]];
  }

  lemma LayoutEmpty(text: string, i: nat, rest: seq<string>, level: int)
    requires i < |text| && (text[i] == '{' || text[i] == '[')
    requires Lex(text[i + 1..]) == [[ClosingChar(text[i])]] + rest
    ensures Layout(Lex(text[i..]), level) == [text[i]] + [ClosingChar(text[i])] + Layout(rest, level)
  {
    var t := [text[i]];
    LexOpening(text, i);
    LayoutPair(t, rest, level);
    assert [t] + ([Closing(t)] + rest) == [t, Closing(t)] + rest;
  }

  lemma LayoutOpen(text: string, i: nat, level: int)
    requires i < |text| && (text[i] == '{' || text[i] == '[')
    requires Lex(text[i + 1..]) != [] ==> Lex(text[i + 1..])[0] != [ClosingChar(text[i])]
    ensures Layout(Lex(text[i..]), level) == [text[i]] + NewLine(level + 1) + Layout(Lex(text[i + 1..]), level + 1)
  {
    LexOpening(text, i);
    LayoutOpening([text[i]], Lex(text[i + 1..]), level);
  }

  /** A bracket that opens at `i`, with its pair where nothing stands between them. */
  method NextOpening(text: string, i: nat, level: int) returns (piece: string, next: nat, nextLevel: int)
    requires i < |text| && (text[i] == '{' || text[i] == '[')
    ensures i < next <= |text|
    ensures Layout(Lex(text[i..]), level) == piece + Layout(Lex(text[next..]), nextLevel)
  {
    var close := ClosingChar(text[i]);
    var j := SkipSpaces(text, i + 1);
    FirstToken(text, j, close);
    if j < |text| && text[j] == close {
      LayoutEmpty(text, i, Lex(text[j + 1..]), level);
      return [text[i]] + [close], j + 1, level;
    }
    LayoutOpen(text, i, level);
    return [text[i]] + NewLine(level + 1), i + 1, level + 1;
  }

  /** What a token other than an opening bracket is laid out as, and the level after it. */
  function Piece(t: string, level: int): (string, int) {
    if t == "}" || t == "]" then (NewLine(level - 1) + t, level - 1)
    else if t == "," then ("," + NewLine(level), level)
    else if t == ":" then (": ", level)
    else (t, level)
  }

  lemma LayoutPiece(t: string, rest: seq<string>, level: int)
    requires t != "{" && t != "["
    ensures Layout([t] + rest, level) == Piece(t, level).0 + Layout(rest, Piece(t, level).1)
  {
    assert ([t] + rest)[1..] == rest;
  }

  /** One token that is no opening bracket. */
  method NextToken(text: string, i: nat, level: int) returns (piece: string, next: nat, nextLevel: int)
    requires i < |text| && !IsJsonSpace(text[i]) && text[i] != '{' && text[i] != '['
    ensures next == i + TokenLength(text[i..]) && (piece, nextLevel) == Piece(text[i..next], level)
  {
    var ch := text[i];
    next, nextLevel := i + 1, level;
    if ch == '"' {
      next := ScanString(text, i);
    }
    ghost var t := text[i..next];
    assert t[0] == ch && (ch != '"' ==> t == [ch]);
    if ch == '"' {
      piece := text[i..next];
    } else if ch == '}' || ch == ']' {
      nextLevel := level - 1;
      piece := NewLine(nextLevel) + [ch];
    } else if ch == ',' {
      piece := "," + NewLine(level);
    } else if ch == ':' {
      piece := ": ";
    } else {
      piece := [ch];
    }
  }

  /** What one round of the scan writes, where it goes on, and at which level. */
  method Next(text: string, i: nat, level: int) returns (piece: string, next: nat, nextLevel: int)
    requires i < |text|
    ensures i < next <= |text|
    ensures Layout(Lex(text[i..]), level) == piece + Layout(Lex(text[next..]), nextLevel)
  {
    if IsJsonSpace(text[i]) {
      piece, next, nextLevel := "", i + 1, level;
      LexSkips(text, i, i + 1);
      assert "" + Layout(Lex(text[next..]), level) == Layout(Lex(text[next..]), level);
    } else if text[i] == '{' || text[i] == '[' {
      piece, next, nextLevel := NextOpening(text, i, level);
    } else {
      piece, next, nextLevel := NextToken(text, i, level);
      LexAt(text, i);
      assert text[i..next][0] == text[i];
      LayoutPiece(text[i..next], Lex(text[next..]), level);
    }
  }

  method ReindentJson(text: string, depth: int) returns (out: string)
    ensures out == Reindent(text, depth)
  {
    out := "";
    var level := depth;
    var i := 0;
    assert text[0..] == text && "" + Reindent(text, depth) == Reindent(text, depth);
    while i < |text|
      invariant i <= |text| && out + Layout(Lex(text[i..]), level) == Reindent(text, depth)
    {
      var piece, next, nextLevel := Next(text, i, level);
      ConcatAssoc(out, piece, Layout(Lex(text[next..]), nextLevel));
      out, i, level := out + piece, next, nextLevel;
    }
    assert out + "" == out;
  }
}

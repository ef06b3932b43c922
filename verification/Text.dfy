/** Results that may be absent, and results that carry the reason of a failure. */
module Outcomes {
  datatype Option<+T> = None | Some(value: T)

  datatype Result<+T, +E> = Success(value: T) | Failure(error: E) {
    predicate IsFailure() {
      Failure?
    }

    function PropagateFailure<U>(): Result<U, E>
      requires Failure?
    {
      Failure(error)
    }

    function Extract(): T
      requires Success?
    {
      value
    }
  }
}

/** Characters and the scanning steps both small languages share. */
module Text {
  import opened Outcomes

  /** What ECMAScript's `\s` matches. */
  predicate IsSpace(c: char) {
    || '\U{9}' <= c <= '\U{D}' || c == ' ' || c == '\U{A0}' || c == '\U{1680}'
    || '\U{2000}' <= c <= '\U{200A}' || c == '\U{2028}' || c == '\U{2029}'
    || c == '\U{202F}' || c == '\U{205F}' || c == '\U{3000}' || c == '\U{FEFF}'
  }

  predicate IsNameStart(c: char) {
    'a' <= c <= 'z' || 'A' <= c <= 'Z' || c == '_'
  }

  predicate IsNameChar(c: char) {
    IsNameStart(c) || '0' <= c <= '9'
  }

  function UpperAscii(c: char): char {
    if 'a' <= c <= 'z' then c - 'a' + 'A' else c
  }

  /** Upper case of a word whose letters are all ASCII. */
  function Upper(s: string): (u: string)
    ensures |u| == |s| && forall i :: 0 <= i < |s| ==> u[i] == UpperAscii(s[i])
  {
    seq(|s|, i requires 0 <= i < |s| => UpperAscii(s[i]))
  }

  predicate IsBareName(s: string) {
    && s != "" && IsNameStart(s[0])
    && forall i :: 0 <= i < |s| ==> IsNameChar(s[i])
  }

  // ---- Runs of one class of character ----

  datatype CharClass = Space | NotSpace | NameChar | OperatorChar | BareValueChar | DigitChar {
    predicate Has(c: char) {
      match this
      case Space => IsSpace(c)
      case NotSpace => !IsSpace(c)
      case NameChar => IsNameChar(c)
      case OperatorChar => c == '<' || c == '>' || c == '!' || c == '='
      case BareValueChar => !IsSpace(c) && c != '\''
      case DigitChar => '0' <= c <= '9'
    }
  }

  /** Length of the longest prefix of `s` made of characters of class `k`. */
  function Span(k: CharClass, s: string): (n: nat)
    ensures n <= |s|
    ensures forall i :: 0 <= i < n ==> k.Has(s[i])
    ensures n < |s| ==> !k.Has(s[n])
  {
    if s == "" || !k.Has(s[0]) then 0 else 1 + Span(k, s[1..])
  }

  /** Those two facts determine the length. */
  lemma SpanIs(k: CharClass, s: string, n: nat)
    requires n <= |s|
    requires forall i :: 0 <= i < n ==> k.Has(s[i])
    requires n < |s| ==> !k.Has(s[n])
    ensures Span(k, s) == n
  {
    if s != "" && k.Has(s[0]) && n > 0 {
      SpanIs(k, s[1..], n - 1);
    }
  }

  // ---- Quoted text: the quote is written twice inside ----

  function DoubledChar(c: char, q: char): string {
    if c == q then [q, q] else [c]
  }

  function Doubled(s: string, q: char): string {
    if s == "" then "" else DoubledChar(s[0], q) + Doubled(s[1..], q)
  }

  function Enclosed(s: string, q: char): string {
    [q] + Doubled(s, q) + [q]
  }

  /**
   * Reads quoted text from just after its opening quote: what it spells and how
   * many characters it takes, the closing quote included; None when it never closes.
   */
  function ScanQuoted(s: string, q: char): (r: Option<(string, nat)>)
    ensures r.Some? ==> 0 < r.value.1 <= |s| && |r.value.0| < r.value.1
    ensures r.Some? ==> s[r.value.1 - 1] == q
  {
    if s == "" then None
    else if s[0] == q then
      if |s| > 1 && s[1] == q then
        match ScanQuoted(s[2..], q)
        case None => None
        case Some((text, n)) => Some(([q] + text, n + 2))
      else Some(("", 1))
    else
      match ScanQuoted(s[1..], q)
      case None => None
      case Some((text, n)) => Some(([s[0]] + text, n + 1))
  }

  /** One character read is one character spelled, whatever `tail` spells. */
  lemma ScanStep(c: char, q: char, s: string, tail: string, text: string, n: nat)
    requires s == DoubledChar(c, q) + tail && ScanQuoted(tail, q) == Some((text, n))
    ensures ScanQuoted(s, q) == Some(([c] + text, n + |DoubledChar(c, q)|))
  {
    if c == q {
      assert s[0] == q && s[1] == q && s[2..] == tail;
    } else {
      assert s[0] == c && s[1..] == tail;
    }
  }

  lemma ScanClosing(q: char, rest: string)
    requires rest == "" || rest[0] != q
    ensures ScanQuoted([q] + rest, q) == Some(("", 1))
  {
    var t := [q] + rest;
    assert t[0] == q && (|t| > 1 ==> t[1] == rest[0]);
  }

  lemma {:induction false} ScanDoubled(s: string, q: char, rest: string)
    requires rest == "" || rest[0] != q
    ensures ScanQuoted(Doubled(s, q) + [q] + rest, q) == Some((s, |Doubled(s, q)| + 1))
  {
    if s == "" {
      ScanClosing(q, rest);
      assert Doubled(s, q) + [q] + rest == [q] + rest;
    } else {
      var first, d := DoubledChar(s[0], q), Doubled(s[1..], q);
      ScanDoubled(s[1..], q, rest);
      DoubledRest(first, d, [q], rest);
      ScanStep(s[0], q, first + d + [q] + rest, d + [q] + rest, s[1..], |d| + 1);
      assert s == [s[0]] + s[1..];
    }
  }

  lemma DoubledRest(a: string, b: string, c: string, d: string)
    ensures a + b + c + d == a + (b + c + d)
  {
  }

  /** What was read is what was written: the scanned text is the doubling of what it spells. */
  lemma {:induction false} ScannedIsDoubled(s: string, q: char)
    requires ScanQuoted(s, q).Some?
    ensures var (text, n) := ScanQuoted(s, q).value; s[..n] == Doubled(text, q) + [q]
    ensures var (_, n) := ScanQuoted(s, q).value; n < |s| ==> s[n] != q
  {
    if s[0] == q && !(|s| > 1 && s[1] == q) {
      assert s[..1] == [q];
    } else {
      var k := if s[0] == q then 2 else 1;
      ScannedIsDoubled(s[k..], q);
      var (text, n) := ScanQuoted(s[k..], q).value;
      assert s[..n + k] == s[..k] + s[k..][..n];
      assert s[..k] == DoubledChar(s[0], q);
      DoubledMore(s[0], text, q);
    }
  }

  lemma DoubledMore(c: char, text: string, q: char)
    ensures Doubled([c] + text, q) + [q] == DoubledChar(c, q) + (Doubled(text, q) + [q])
  {
    assert ([c] + text)[1..] == text;
  }

  /** Only the text read matters, not what follows it. */
  lemma ScanIgnoresRest(s: string, q: char, rest: string)
    requires ScanQuoted(s, q).Some?
    requires rest == "" || rest[0] != q
    ensures ScanQuoted(s[..ScanQuoted(s, q).value.1] + rest, q) == ScanQuoted(s, q)
  {
    ScannedIsDoubled(s, q);
    var (text, n) := ScanQuoted(s, q).value;
    ScanDoubled(text, q, rest);
  }

  /** The scan as a loop does it: `i` is the next character, `text` what was spelled so far. */
  function ScanLoop(s: string, i: nat, text: string, q: char): Option<(string, nat)>
    decreases |s| - i
  {
    if i >= |s| then None
    else if s[i] == q then
      if i + 1 < |s| && s[i + 1] == q then ScanLoop(s, i + 2, text + [q], q) else Some((text, i + 1))
    else ScanLoop(s, i + 1, text + [s[i]], q)
  }

  lemma {:induction false} ScanLoopIs(s: string, i: nat, text: string, q: char)
    requires i <= |s|
    ensures ScanLoop(s, i, text, q)
         == match ScanQuoted(s[i..], q)
            case None => None
            case Some((more, n)) => Some((text + more, i + n))
    decreases |s| - i
  {
    if i < |s| {
      if s[i] == q && !(i + 1 < |s| && s[i + 1] == q) {
        assert text + "" == text;
      } else {
        var k := if s[i] == q then 2 else 1;
        ScanLoopIs(s, i + k, text + [s[i]], q);
        assert s[i..][k..] == s[i + k..];
        var rest := ScanQuoted(s[i + k..], q);
        if rest.Some? {
          ConcatAssoc(text, [s[i]], rest.value.0);
        }
      }
    }
  }

  // ---- Lists ----

  lemma ConcatAssoc<T>(a: seq<T>, b: seq<T>, c: seq<T>)
    ensures a + b + c == a + (b + c)
  {
  }

  lemma TakeNext<T>(s: seq<T>, k: nat)
    requires k < |s|
    ensures s[..k] + [s[k]] == s[..k + 1] && (k + 1 == |s| ==> s[..k + 1] == s)
  {
  }

  /** Taking one more element along. */
  lemma TakeMore<T>(done: seq<T>, s: seq<T>, m: nat)
    requires m < |s|
    ensures done + [s[0]] + s[1..][..m] == done + s[..m + 1] && s[1..][m..] == s[m + 1..]
  {
  }

  function JoinWith(parts: seq<string>, sep: string): string {
    if parts == [] then ""
    else if |parts| == 1 then parts[0]
    else parts[0] + sep + JoinWith(parts[1..], sep)
  }
}

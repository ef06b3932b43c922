/**
 * Text read token by token. `read` is a lexer: any function from text to
 * tokens. The lemmas put together how pieces are read into how a whole text is.
 */
module Reading {
  import opened Text

  /** What may follow a word or a quoted name without running into it. */
  predicate Breaks(rest: string) {
    rest == "" || (!IsNameChar(rest[0]) && rest[0] != '"' && rest[0] != '`')
  }

  /** `s` is read as `toks`, whatever follows that does not run into its end. */
  ghost predicate Reads<T>(read: string -> seq<T>, s: string, toks: seq<T>) {
    forall rest: string :: Breaks(rest) ==> read(s + rest) == toks + read(rest)
  }

  /** `s` is read as `toks`, whatever follows. */
  ghost predicate ReadsAlways<T>(read: string -> seq<T>, s: string, toks: seq<T>) {
    forall rest: string :: read(s + rest) == toks + read(rest)
  }

  lemma ReadsNothing<T>(read: string -> seq<T>)
    ensures Reads(read, "", [])
  {
    forall rest: string | Breaks(rest)
      ensures read("" + rest) == [] + read(rest)
    {
      assert "" + rest == rest;
      assert [] + read(rest) == read(rest);
    }
  }

  lemma ReadsThen<T>(read: string -> seq<T>, a: string, ta: seq<T>, b: string, tb: seq<T>)
    requires Reads(read, a, ta) && Reads(read, b, tb)
    requires b != "" && Breaks(b)
    ensures Reads(read, a + b, ta + tb)
  {
    forall rest: string | Breaks(rest)
      ensures read(a + b + rest) == ta + tb + read(rest)
    {
      assert a + b + rest == a + (b + rest);
      assert (b + rest)[0] == b[0];
      assert ta + (tb + read(rest)) == ta + tb + read(rest);
    }
  }

  lemma ReadsAfter<T>(read: string -> seq<T>, a: string, ta: seq<T>, b: string, tb: seq<T>)
    requires ReadsAlways(read, a, ta) && Reads(read, b, tb)
    ensures Reads(read, a + b, ta + tb)
  {
    forall rest: string | Breaks(rest)
      ensures read(a + b + rest) == ta + tb + read(rest)
    {
      assert a + b + rest == a + (b + rest);
      assert ta + (tb + read(rest)) == ta + tb + read(rest);
    }
  }

  /** `sep` reads as `stoks` between two pieces of text. */
  ghost predicate Separates<T>(read: string -> seq<T>, sep: string, stoks: seq<T>) {
    && sep != "" && Breaks(sep)
    && ReadsAlways(read, sep, stoks)
  }

  /** A separator between two pieces that read. */
  lemma ReadsInfix<T>(
    read: string -> seq<T>, a: string, ta: seq<T>, sep: string, stoks: seq<T>, b: string, tb: seq<T>)
    requires Reads(read, a, ta) && Separates(read, sep, stoks) && Reads(read, b, tb)
    ensures Reads(read, a + sep + b, ta + stoks + tb)
  {
    ReadsAfter(read, sep, stoks, b, tb);
    assert (sep + b)[0] == sep[0];
    ReadsThen(read, a, ta, sep + b, stoks + tb);
    assert a + sep + b == a + (sep + b);
    assert ta + stoks + tb == ta + (stoks + tb);
  }

  /** A word set off by spaces separates. */
  lemma WordSeparates<T>(read: string -> seq<T>, before: string, word: string, toks: seq<T>)
    requires Separates(read, before, []) && Separates(read, " ", [])
    requires Reads(read, word, toks)
    ensures Separates(read, before + word + " ", toks)
  {
    var sep := before + word + " ";
    assert sep[0] == before[0];
    forall rest: string
      ensures read(sep + rest) == toks + read(rest)
    {
      assert sep + rest == before + (word + (" " + rest));
      assert (" " + rest)[0] == ' ';
      assert [] + read(word + (" " + rest)) == read(word + (" " + rest));
      assert [] + read(rest) == read(rest);
    }
  }

  function JoinedToks<T>(parts: seq<seq<T>>, sep: seq<T>): seq<T> {
    if parts == [] then []
    else if |parts| == 1 then parts[0]
    else parts[0] + (sep + JoinedToks(parts[1..], sep))
  }

  ghost predicate ReadsEach<T>(read: string -> seq<T>, parts: seq<string>, ptoks: seq<seq<T>>) {
    |parts| == |ptoks| && forall i :: 0 <= i < |parts| ==> Reads(read, parts[i], ptoks[i])
  }

  lemma ReadsBoth<T>(
    read: string -> seq<T>, a: seq<string>, ta: seq<seq<T>>, b: seq<string>, tb: seq<seq<T>>)
    requires ReadsEach(read, a, ta) && ReadsEach(read, b, tb)
    ensures ReadsEach(read, a + b, ta + tb)
  {
  }

  lemma {:induction false} ReadsJoined<T>(
    read: string -> seq<T>, parts: seq<string>, ptoks: seq<seq<T>>, sep: string, stoks: seq<T>)
    requires ReadsEach(read, parts, ptoks)
    requires Separates(read, sep, stoks)
    ensures Reads(read, JoinWith(parts, sep), JoinedToks(ptoks, stoks))
  {
    if parts == [] {
      ReadsNothing(read);
    } else if |parts| > 1 {
      var tail, ttail := JoinWith(parts[1..], sep), JoinedToks(ptoks[1..], stoks);
      ReadsJoined(read, parts[1..], ptoks[1..], sep, stoks);
      ReadsAfter(read, sep, stoks, tail, ttail);
      assert (sep + tail)[0] == sep[0];
      ReadsThen(read, parts[0], ptoks[0], sep + tail, stoks + ttail);
      assert parts[0] + (sep + tail) == parts[0] + sep + tail;
    }
  }
}

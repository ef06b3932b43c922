/**
 * The lenient tokenizer and the parser, written apart, read accepted filters
 * alike, except where a column is named NOT right after a NOT.
 */
module FilterAgreement {
  import opened Outcomes
  import opened Text
  import opened FilterTypes
  import opened FilterDsl
  import opened FilterTokens
  import FilterCompose

  // ---- The words the tokenizer sees ----

  /** A token that is no space, as written. */
  datatype Lexeme = Lexeme(kind: Kind, text: string)

  datatype Lexed = Lexed(words: seq<Lexeme>, wanted: Wanted)

  function Lexemes(next: Lexer, s: string, wanted: Wanted): Lexed
    decreases |s|
  {
    if s == "" then Lexed([], wanted)
    else
      var step := next(s, wanted);
      var n := step.length;
      if !(0 < n <= |s|) then Lexed([], wanted)
      else
        var rest := Lexemes(next, s[n..], step.wanted);
        if step.kind == BlankTok then rest else rest.(words := [Lexeme(step.kind, s[..n])] + rest.words)
  }

  function Words(tokens: seq<Token>, text: string): seq<Lexeme> {
    if tokens == [] then []
    else
      var t := tokens[0];
      (if t.kind == BlankTok || !(t.start <= t.end <= |text|) then [] else [Lexeme(t.kind, text[t.start..t.end])])
      + Words(tokens[1..], text)
  }

  lemma SliceAgain(text: string, i: nat, j: nat)
    requires i <= j <= |text|
    ensures text[i..][j - i..] == text[j..] && text[i..][..j - i] == text[i..j]
  {
  }

  lemma FirstWord(t: Token, rest: Tokenized, text: string)
    requires t.start <= t.end <= |text|
    ensures Words(Prepend(t, rest).tokens, text)
         == (if t.kind == BlankTok then [] else [Lexeme(t.kind, text[t.start..t.end])]) + Words(rest.tokens, text)
  {
    assert ([t] + rest.tokens)[1..] == rest.tokens;
  }

  lemma FirstLexeme(next: Lexer, s: string, wanted: Wanted, step: Step, s': string)
    requires s != "" && next(s, wanted) == step && 0 < step.length <= |s| && s' == s[step.length..]
    ensures var rest := Lexemes(next, s', step.wanted);
            Lexemes(next, s, wanted)
            == if step.kind == BlankTok then rest
               else rest.(words := [Lexeme(step.kind, s[..step.length])] + rest.words)
  {
  }

  lemma {:induction false} TokenWords(next: Lexer, text: string, i: nat, wanted: Wanted, column: Option<string>)
    requires i <= |text|
    ensures var all := TokenizeFrom(next, text, i, wanted, column);
            Lexemes(next, text[i..], wanted) == Lexed(Words(all.tokens, text), all.wanted)
    decreases |text| - i
  {
    if i < |text| {
      var step := next(text[i..], wanted);
      var j := i + step.length;
      if i < j <= |text| {
        SliceAgain(text, i, j);
        var column' := NextColumn(step, wanted, text[i..j], column);
        TokenWords(next, text, j, step.wanted, column');
        FirstWord(
          Token(step.kind, i, j, wanted, column), TokenizeFrom(next, text, j, step.wanted, column'), text);
        FirstLexeme(next, text[i..], wanted, step, text[j..]);
      }
    }
  }

  /** Lexing `s` gives `words`, and goes on as lexing `s'` does. */
  ghost predicate Leads(next: Lexer, s: string, wanted: Wanted, words: seq<Lexeme>, s': string, wanted': Wanted) {
    var rest := Lexemes(next, s', wanted');
    Lexemes(next, s, wanted) == rest.(words := words + rest.words)
  }

  lemma LeadsThen(
    next: Lexer, s: string, w: Wanted, a: seq<Lexeme>, s': string, w': Wanted, b: seq<Lexeme>, s'': string, w'': Wanted)
    requires Leads(next, s, w, a, s', w') && Leads(next, s', w', b, s'', w'')
    ensures Leads(next, s, w, a + b, s'', w'')
  {
    var rest := Lexemes(next, s'', w'').words;
    assert a + (b + rest) == a + b + rest;
  }

  lemma LeadsOn(
    next: Lexer, s: string, w: Wanted, a: seq<Lexeme>, s': string, w': Wanted, s'': string, w'': Wanted)
    requires Leads(next, s, w, a, s', w') && Leads(next, s', w', [], s'', w'')
    ensures Leads(next, s, w, a, s'', w'')
  {
    LeadsThen(next, s, w, a, s', w', [], s'', w'');
    assert a + [] == a;
  }

  lemma LeadsFrom(
    next: Lexer, s: string, w: Wanted, s': string, w': Wanted, b: seq<Lexeme>, s'': string, w'': Wanted)
    requires Leads(next, s, w, [], s', w') && Leads(next, s', w', b, s'', w'')
    ensures Leads(next, s, w, b, s'', w'')
  {
    LeadsThen(next, s, w, [], s', w', b, s'', w'');
    assert [] + b == b;
  }

  lemma StepLeads(next: Lexer, s: string, w: Wanted, step: Step)
    requires s != "" && next(s, w) == step && 0 < step.length <= |s|
    ensures Leads(
              next, s, w, if step.kind == BlankTok then [] else [Lexeme(step.kind, s[..step.length])],
              s[step.length..], step.wanted)
  {
    var rest := Lexemes(next, s[step.length..], step.wanted).words;
    assert [] + rest == rest;
  }

  lemma SkipLeads(s: string, w: Wanted)
    ensures Leads(NextToken, s, w, [], SkipSpace(s), w)
  {
    var n := Span(Space, s);
    if n == 0 {
      assert s[n..] == s;
      var all := Lexemes(NextToken, s, w).words;
      assert [] + all == all;
    } else {
      assert s != "" && IsSpace(s[0]);
      StepLeads(NextToken, s, w, Step(BlankTok, n, w));
    }
  }

  /** A word after optional space. */
  lemma WordLeads(s: string, w: Wanted, step: Step)
    requires var t := SkipSpace(s); t != "" && !IsSpace(t[0]) && NextWord(t, w) == step && step.kind != BlankTok
    ensures var t := SkipSpace(s);
            Leads(NextToken, s, w, [Lexeme(step.kind, t[..step.length])], t[step.length..], step.wanted)
  {
    var t := SkipSpace(s);
    SkipLeads(s, w);
    assert NextToken(t, w) == step;
    StepLeads(NextToken, t, w, step);
    var word := [Lexeme(step.kind, t[..step.length])];
    LeadsFrom(NextToken, s, w, t, w, word, t[step.length..], step.wanted);
  }

  // ---- Keywords ----

  /** The two keyword tests differ only on letters no keyword has and on letters outside the BMP. */
  lemma KeywordIsLoose(keyword: string, s: string)
    requires KeywordAt(keyword, s) && forall i :: 0 <= i < |keyword| ==> 'A' <= keyword[i] <= 'Z'
    ensures LooseKeywordAt(keyword, s)
  {
    forall i | 0 <= i < |keyword|
      ensures LooseUpper(s[i]) == keyword[i]
    {
      assert UpperAscii(s[i]) == keyword[i];
    }
  }

  lemma NotLoose(keyword: string, s: string, i: nat)
    requires i < |keyword| && (i < |s| ==> LooseUpper(s[i]) != keyword[i])
    ensures !LooseKeywordAt(keyword, s)
  {
  }

  lemma SkipSkips(s: string)
    ensures SkipSpace(s) == "" || !IsSpace(SkipSpace(s)[0])
    ensures SkipSpace(SkipSpace(s)) == SkipSpace(s)
  {
    var t := SkipSpace(s);
    SpanIs(Space, t, 0);
    assert t[0..] == t;
  }

  // ---- Columns ----

  lemma NameStops(s: string)
    requires Name(s).Some?
    ensures AfterName(s) == "" || !IsNameChar(AfterName(s)[0])
  {
    var k := Span(NameChar, s[1..]);
    assert AfterName(s) == s[k + 1..];
    if k + 1 < |s| {
      assert s[k + 1..][0] == s[1..][k];
    }
  }

  lemma SplitAt(a: string, b: string)
    ensures (a + b)[..|a|] == a && (a + b)[|a|..] == b
  {
  }

  lemma NameSpan(s: string)
    requires Name(s).Some?
    ensures var (name, rest) := Name(s).value;
            Span(NameChar, s) == |name| == |s| - |rest| && s[..|name|] == name && s[|name|..] == rest
    ensures AfterName(s) == "" || !IsNameChar(AfterName(s)[0])
  {
    var (name, rest) := Name(s).value;
    SplitAt(name, rest);
    NameStops(s);
    SpanIs(NameChar, s, |name|);
  }

  function AfterName(s: string): string
    requires Name(s).Some?
  {
    Name(s).value.1
  }

  /** A name is read the same with nothing after it. */
  lemma NameAlone(name: string)
    requires IsBareName(name)
    ensures Name(name) == Some((name, ""))
  {
    SpanIs(NameChar, name[1..], |name| - 1);
    assert name[..|name|] == name && name[|name|..] == "";
  }

  /** The text of a column: what the parser read of it is what the tokenizer takes. */
  ghost predicate ColumnEnds(t: string, aliases: Option<seq<string>>, name: FilterDsl.ColumnName, after: string) {
    var n := |t| - |after|;
    && 0 < n <= |t| && t[n..] == after
    && IdentLength(t) == Some(n)
    && FilterDsl.Column(t[..n], aliases) == Some((name, ""))
  }

  lemma BareColumnEnds(t: string, aliases: Option<seq<string>>)
    requires FilterDsl.Column(t, aliases).Some? && !StartsWith(t, '"')
    requires Name(t).Some? && !StartsWith(Name(t).value.1, '.')
    ensures var (name, after) := FilterDsl.Column(t, aliases).value; ColumnEnds(t, aliases, name, after)
  {
    var (first, after) := Name(t).value;
    NameSpan(t);
    assert t[1..][Span(NameChar, t[1..])..] == t[1 + Span(NameChar, t[1..])..];
    NameAlone(first);
  }

  lemma DottedAlone(first: string, column: string, aliases: seq<string>)
    requires IsBareName(first) && IsBareName(column) && IndexOf(aliases, first).Some?
    ensures FilterDsl.Column(first + ("." + column), Some(aliases))
         == Some((FilterDsl.ColumnName(column, IndexOf(aliases, first)), ""))
  {
    FilterCompose.NameRead(first, "." + column);
    NameAlone(column);
    FilterCompose.QualifiedColumn(
      first + ("." + column), aliases, first, column, column, "", IndexOf(aliases, first).value);
  }

  lemma DottedParts(t: string, first: string, dotted: string, column: string, after: string, spelt: string)
    requires t == first + dotted && StartsWith(dotted, '.') && dotted[1..] == column + after
    requires spelt == first + ("." + column)
    ensures 0 < |spelt| <= |t| && t[..|spelt|] == spelt && t[|spelt|..] == after && t[|first| + 1..] == dotted[1..]
  {
    assert dotted == "." + (column + after);
    assert t == spelt + after;
    SplitAt(spelt, after);
  }

  lemma DottedIdent(t: string, first: string, dotted: string, column: string, after: string)
    requires Name(t) == Some((first, dotted)) && StartsWith(dotted, '.') && Name(dotted[1..]) == Some((column, after))
    requires t[|first| + 1..] == dotted[1..]
    ensures IdentLength(t) == Some(|first| + 1 + |column|)
  {
    NameSpan(t);
    NameSpan(dotted[1..]);
  }

  lemma DottedLength(t: string, first: string, dotted: string, column: string, after: string, spelt: string)
    requires Name(t) == Some((first, dotted)) && StartsWith(dotted, '.') && Name(dotted[1..]) == Some((column, after))
    requires spelt == first + ("." + column)
    ensures 0 < |spelt| <= |t| && t[..|spelt|] == spelt && t[|spelt|..] == after
    ensures IdentLength(t) == Some(|spelt|)
  {
    NameSpan(t);
    NameSpan(dotted[1..]);
    DottedParts(t, first, dotted, column, after, spelt);
    DottedIdent(t, first, dotted, column, after);
  }

  /** What an accepted qualified column is made of. */
  lemma DottedColumn(t: string, aliases: seq<string>)
    requires FilterDsl.Column(t, Some(aliases)).Some? && !StartsWith(t, '"')
    requires Name(t).Some? && StartsWith(Name(t).value.1, '.')
    ensures var (first, dotted) := Name(t).value;
            && Name(dotted[1..]).Some? && IndexOf(aliases, first).Some?
            && var (column, after) := Name(dotted[1..]).value;
               FilterDsl.Column(t, Some(aliases)) == Some((FilterDsl.ColumnName(column, IndexOf(aliases, first)), after))
  {
  }

  /** `ColumnEnds`, from a text known to be what stands there. */
  lemma EndsWith(
    t: string, aliases: Option<seq<string>>, name: FilterDsl.ColumnName, spelt: string, after: string)
    requires 0 < |spelt| <= |t| && t[..|spelt|] == spelt && t[|spelt|..] == after
    requires IdentLength(t) == Some(|spelt|) && FilterDsl.Column(spelt, aliases) == Some((name, ""))
    ensures ColumnEnds(t, aliases, name, after)
  {
  }

  lemma DottedEnds(
    t: string, aliases: seq<string>, first: string, dotted: string, column: string, after: string, spelt: string)
    requires Name(t) == Some((first, dotted)) && StartsWith(dotted, '.') && Name(dotted[1..]) == Some((column, after))
    requires IndexOf(aliases, first).Some? && spelt == first + ("." + column)
    ensures ColumnEnds(t, Some(aliases), FilterDsl.ColumnName(column, IndexOf(aliases, first)), after)
  {
    DottedLength(t, first, dotted, column, after, spelt);
    DottedAlone(first, column, aliases);
    EndsWith(t, Some(aliases), FilterDsl.ColumnName(column, IndexOf(aliases, first)), spelt, after);
  }

  lemma DottedColumnEnds(t: string, aliases: seq<string>)
    requires FilterDsl.Column(t, Some(aliases)).Some? && !StartsWith(t, '"')
    requires Name(t).Some? && StartsWith(Name(t).value.1, '.')
    ensures var (name, after) := FilterDsl.Column(t, Some(aliases)).value; ColumnEnds(t, Some(aliases), name, after)
  {
    DottedColumn(t, aliases);
    var (first, dotted) := Name(t).value;
    var (column, after) := Name(dotted[1..]).value;
    DottedEnds(t, aliases, first, dotted, column, after, first + ("." + column));
  }

  lemma QuotedAlone(t: string, k: nat, column: string, aliases: seq<string>)
    requires StartsWith(t, '"') && QuotedAlias(t).Some? && IsBareName(column) && k == ScanQuoted(t[1..], '"').value.1
    requires IndexOf(aliases, QuotedAlias(t).value.0).Some?
    ensures FilterDsl.Column(t[..k + 1] + ("." + column), Some(aliases))
         == Some((FilterDsl.ColumnName(column, IndexOf(aliases, QuotedAlias(t).value.0)), ""))
  {
    var first := QuotedAlias(t).value.0;
    var s := t[..k + 1] + ("." + column);
    assert s[1..] == t[1..][..k] + ("." + column);
    ScanIgnoresRest(t[1..], '"', "." + column);
    assert s[k + 1..] == "." + column;
    NameAlone(column);
    FilterCompose.QualifiedColumn(s, aliases, first, column, column, "", IndexOf(aliases, first).value);
  }

  lemma QuotedColumnEnds(t: string, aliases: seq<string>)
    requires FilterDsl.Column(t, Some(aliases)).Some? && StartsWith(t, '"')
    ensures var (name, after) := FilterDsl.Column(t, Some(aliases)).value; ColumnEnds(t, Some(aliases), name, after)
  {
    QuotedColumn(t, aliases);
    var (first, dotted) := QuotedAlias(t).value;
    var (column, after) := Name(dotted[1..]).value;
    QuotedEnds(t, aliases, first, dotted, column, after);
  }

  /** What an accepted column of a quoted table is made of. */
  lemma QuotedColumn(t: string, aliases: seq<string>)
    requires FilterDsl.Column(t, Some(aliases)).Some? && StartsWith(t, '"')
    ensures QuotedAlias(t).Some? && StartsWith(QuotedAlias(t).value.1, '.')
    ensures var (first, dotted) := QuotedAlias(t).value;
            && Name(dotted[1..]).Some? && IndexOf(aliases, first).Some?
            && var (column, after) := Name(dotted[1..]).value;
               FilterDsl.Column(t, Some(aliases)) == Some((FilterDsl.ColumnName(column, IndexOf(aliases, first)), after))
  {
  }

  lemma QuotedParts(t: string, first: string, dotted: string) returns (k: nat, quoted: string)
    requires StartsWith(t, '"') && QuotedAlias(t) == Some((first, dotted))
    ensures ScanQuoted(t[1..], '"') == Some((first, k)) && first != "" && k < |t|
    ensures quoted == t[..k + 1] && dotted == t[k + 1..] && t == quoted + dotted
  {
    k := ScanQuoted(t[1..], '"').value.1;
    quoted := t[..k + 1];
  }

  lemma QuotedEnds(t: string, aliases: seq<string>, first: string, dotted: string, column: string, after: string)
    requires StartsWith(t, '"') && QuotedAlias(t) == Some((first, dotted)) && StartsWith(dotted, '.')
    requires Name(dotted[1..]) == Some((column, after)) && IndexOf(aliases, first).Some?
    ensures ColumnEnds(t, Some(aliases), FilterDsl.ColumnName(column, IndexOf(aliases, first)), after)
  {
    var k, quoted := QuotedParts(t, first, dotted);
    var spelt := quoted + ("." + column);
    QuotedLength(t, first, k, quoted, dotted, column, after, spelt);
    QuotedAlone(t, k, column, aliases);
    EndsWith(t, Some(aliases), FilterDsl.ColumnName(column, IndexOf(aliases, first)), spelt, after);
  }

  lemma QuotedLength(
    t: string, first: string, k: nat, quoted: string, dotted: string, column: string, after: string, spelt: string)
    requires StartsWith(t, '"') && ScanQuoted(t[1..], '"') == Some((first, k)) && first != ""
    requires t == quoted + dotted && |quoted| == k + 1 && StartsWith(dotted, '.')
    requires Name(dotted[1..]) == Some((column, after)) && spelt == quoted + ("." + column)
    ensures 0 < |spelt| <= |t| && t[..|spelt|] == spelt && t[|spelt|..] == after
    ensures IdentLength(t) == Some(|spelt|) && IsBareName(column)
  {
    NameSpan(dotted[1..]);
    DottedParts(t, quoted, dotted, column, after, spelt);
    SplitAt(quoted, dotted);
  }

  lemma ColumnTextEnds(t: string, aliases: Option<seq<string>>)
    requires FilterDsl.Column(t, aliases).Some?
    ensures var (name, after) := FilterDsl.Column(t, aliases).value;
            ColumnEnds(t, aliases, name, after) && !IsSpace(t[0]) && (after == "" || !IsNameChar(after[0]))
  {
    if aliases.Some? && StartsWith(t, '"') {
      QuotedColumnEnds(t, aliases.value);
      NameSpan(QuotedAlias(t).value.1[1..]);
    } else if StartsWith(Name(t).value.1, '.') {
      DottedColumnEnds(t, aliases.value);
      NameSpan(Name(t).value.1[1..]);
    } else {
      BareColumnEnds(t, aliases);
      NameSpan(t);
    }
  }

  // ---- What follows a column ----

  /** A comparison starts, after space, with a word or symbol the tokenizer takes for the same operator. */
  lemma OperatorWord(t: string)
    requires Operator(t).Some?
    ensures var (op, after) := Operator(t).value;
            var n := |t| - |after|;
            && 0 < n && t[n..] == after && !IsSpace(t[0]) && !LooseKeywordAt("IS", t)
            && NextWord(t, WantOperator) == Step(OpTok, n, WantValue)
            && Operator(t[..n]) == Some((op, ""))
  {
    if KeywordAt("ILIKE", t) {
      KeywordIsLoose("ILIKE", t);
      assert UpperAscii(t[1]) == "ILIKE"[1];
      NotLoose("IS", t, 1);
      assert t[..5][5..] == "";
    } else if KeywordAt("LIKE", t) {
      KeywordIsLoose("LIKE", t);
      assert UpperAscii(t[0]) == "LIKE"[0];
      NotLoose("IS", t, 0);
      NotLoose("ILIKE", t, 0);
      LikeAlone(t[..4]);
    } else {
      NotLoose("IS", t, 0);
      NotLoose("ILIKE", t, 0);
      NotLoose("LIKE", t, 0);
    }
  }

  lemma LikeAlone(t: string)
    requires |t| == 4 && forall i :: 0 <= i < 4 ==> UpperAscii(t[i]) == "LIKE"[i]
    ensures Operator(t) == Some((Like, ""))
  {
    assert UpperAscii(t[0]) != "ILIKE"[0];
    assert t[4..] == "";
  }

  /** A value is read to the same end, and reads the same with nothing after it. */
  lemma ValueWord(t: string)
    requires ReadValue(t).Some?
    ensures var (value, after) := ReadValue(t).value;
            var n := |t| - |after|;
            && 0 < n && t[n..] == after && !IsSpace(t[0])
            && NextWord(t, WantValue) == Step(ValueTok, n, WantJoiner)
            && ReadValue(t[..n]) == Some((value, ""))
  {
    if StartsWith(t, '\'') {
      var k := ScanQuoted(t[1..], '\'').value.1;
      assert t[..k + 1][1..] == t[1..][..k] + "";
      ScanIgnoresRest(t[1..], '\'', "");
      assert t[..k + 1][k + 1..] == "";
    } else {
      var n := Span(BareValueChar, t);
      SpanIs(BareValueChar, t[..n], n);
      assert t[..n][..n] == t[..n] && t[..n][n..] == "";
    }
  }

  // ---- Null tests ----

  lemma KeywordWord(keyword: string, t: string)
    requires KeywordAt(keyword, t) && keyword != "" && forall i :: 0 <= i < |keyword| ==> 'A' <= keyword[i] <= 'Z'
    ensures !IsSpace(t[0]) && LooseKeywordAt(keyword, t) && Upper(t[..|keyword|]) == keyword
  {
    KeywordIsLoose(keyword, t);
    assert UpperAscii(t[0]) == keyword[0];
    var u := Upper(t[..|keyword|]);
    assert forall i :: 0 <= i < |keyword| ==> u[i] == keyword[i];
  }

  lemma NullWord(t: string)
    requires KeywordAt("NULL", t)
    ensures NextWord(t, WantNull) == Step(KeywordTok, 4, WantJoiner) && !IsSpace(t[0]) && Upper(t[..4]) == "NULL"
  {
    KeywordWord("NULL", t);
    assert UpperAscii(t[1]) == "NULL"[1];
    NotLoose("NOT", t, 1);
  }

  lemma NotNullWord(t: string)
    requires KeywordAt("NOT", t)
    ensures NextWord(t, WantNull) == Step(KeywordTok, 3, WantNull) && !IsSpace(t[0]) && Upper(t[..3]) == "NOT"
  {
    KeywordWord("NOT", t);
  }

  ghost predicate IsKeyword(w: Lexeme, keyword: string) {
    w.kind == KeywordTok && Upper(w.text) == keyword
  }

  /** The words of [NOT] NULL after IS. */
  ghost predicate NullWords(op: Op, words: seq<Lexeme>) {
    if op.IsNull? then |words| == 1 && IsKeyword(words[0], "NULL")
    else |words| == 2 && IsKeyword(words[0], "NOT") && IsKeyword(words[1], "NULL")
  }

  lemma NullTailLeads(s: string) returns (words: seq<Lexeme>)
    requires NullTail(s).Some?
    ensures var (op, after) := NullTail(s).value;
            && !op.TakesValue() && NullWords(op, words)
            && Leads(NextToken, s, WantNull, words, after, WantJoiner)
  {
    var s1 := SkipSpace(s);
    if KeywordAt("NOT", s1) {
      var s2 := SkipSpace(s1[3..]);
      NotNullWord(s1);
      WordLeads(s, WantNull, Step(KeywordTok, 3, WantNull));
      NullWord(s2);
      WordLeads(s1[3..], WantNull, Step(KeywordTok, 4, WantJoiner));
      var notWord, nullWord := Lexeme(KeywordTok, s1[..3]), Lexeme(KeywordTok, s2[..4]);
      LeadsThen(NextToken, s, WantNull, [notWord], s1[3..], WantNull, [nullWord], s2[4..], WantJoiner);
      words := [notWord] + [nullWord];
    } else {
      NullWord(s1);
      WordLeads(s, WantNull, Step(KeywordTok, 4, WantJoiner));
      words := [Lexeme(KeywordTok, s1[..4])];
    }
  }

  // ---- Conditions ----

  /** The words of what follows the column of a condition. */
  ghost predicate TestWords(op: Op, value: Option<string>, words: seq<Lexeme>) {
    if op.TakesValue() then
      && |words| == 2 && value.Some?
      && words[0].kind == OpTok && Operator(words[0].text) == Some((op, ""))
      && words[1].kind == ValueTok && ReadValue(words[1].text) == Some((value.value, ""))
    else value.None? && |words| > 0 && IsKeyword(words[0], "IS") && NullWords(op, words[1..])
  }

  ghost predicate SimpleWords(
    name: FilterDsl.ColumnName, op: Op, value: Option<string>, words: seq<Lexeme>, aliases: Option<seq<string>>)
  {
    && words != [] && words[0].kind == ColumnTok
    && FilterDsl.Column(words[0].text, aliases) == Some((name, ""))
    && TestWords(op, value, words[1..])
  }

  /**
   * `words` spell `c`: NOT when it is negated, its column, and its operator and
   * value or its null test, each read alone giving what `c` holds.
   */
  ghost predicate ConditionWords(c: Condition, words: seq<Lexeme>, aliases: Option<seq<string>>) {
    var name := FilterDsl.ColumnName(c.column, c.join);
    if c.not then words != [] && IsKeyword(words[0], "NOT") && SimpleWords(name, c.op, c.value, words[1..], aliases)
    else SimpleWords(name, c.op, c.value, words, aliases)
  }

  lemma OperatorLeads(s: string, t: string, op: Op, after: string, text: string)
    requires t == SkipSpace(s) && Operator(t) == Some((op, after)) && text == t[..|t| - |after|]
    ensures Operator(text) == Some((op, "")) && Leads(NextToken, s, WantOperator, [Lexeme(OpTok, text)], after, WantValue)
  {
    OperatorWord(t);
    WordLeads(s, WantOperator, Step(OpTok, |t| - |after|, WantValue));
  }

  lemma ValueLeads(s: string, t: string, value: string, after: string, text: string)
    requires t == SkipSpace(s) && ReadValue(t) == Some((value, after)) && text == t[..|t| - |after|]
    ensures ReadValue(text) == Some((value, "")) && Leads(NextToken, s, WantValue, [Lexeme(ValueTok, text)], after, WantJoiner)
  {
    ValueWord(t);
    WordLeads(s, WantValue, Step(ValueTok, |t| - |after|, WantJoiner));
  }

  lemma ComparisonLeads(name: FilterDsl.ColumnName, s: string) returns (words: seq<Lexeme>)
    requires Comparison(name, s).Some?
    ensures var (simple, after) := Comparison(name, s).value;
            && TestWords(simple.op, simple.value, words) && simple.column == name
            && Leads(NextToken, s, WantOperator, words, after, WantJoiner)
  {
    var t := SkipSpace(s);
    var (op, s1) := Operator(t).value;
    var t1 := SkipSpace(s1);
    var (value, after) := ReadValue(t1).value;
    words := TwoLead(s, t, op, s1, t1, value, after);
  }

  lemma TwoLead(s: string, t: string, op: Op, s1: string, t1: string, value: string, after: string)
      returns (words: seq<Lexeme>)
    requires t == SkipSpace(s) && Operator(t) == Some((op, s1))
    requires t1 == SkipSpace(s1) && ReadValue(t1) == Some((value, after))
    ensures TestWords(op, Some(value), words) && Leads(NextToken, s, WantOperator, words, after, WantJoiner)
  {
    OperatorWord(t);
    ValueWord(t1);
    var opText, valueText := t[..|t| - |s1|], t1[..|t1| - |after|];
    OperatorLeads(s, t, op, s1, opText);
    ValueLeads(s1, t1, value, after, valueText);
    LeadsThen(
      NextToken, s, WantOperator, [Lexeme(OpTok, opText)], s1, WantValue, [Lexeme(ValueTok, valueText)], after, WantJoiner);
    words := [Lexeme(OpTok, opText)] + [Lexeme(ValueTok, valueText)];
  }

  lemma IsWord(t: string)
    requires KeywordAt("IS", t)
    ensures NextWord(t, WantOperator) == Step(KeywordTok, 2, WantNull) && !IsSpace(t[0]) && Upper(t[..2]) == "IS"
  {
    KeywordWord("IS", t);
  }

  lemma TestLeads(s: string, aliases: Option<seq<string>>) returns (words: seq<Lexeme>)
    requires SimpleCondition(s, aliases).Some?
    ensures var (simple, after) := SimpleCondition(s, aliases).value;
            && TestWords(simple.op, simple.value, words)
            && simple.column == FilterDsl.Column(s, aliases).value.0
            && Leads(NextToken, FilterDsl.Column(s, aliases).value.1, WantOperator, words, after, WantJoiner)
  {
    var (name, s1) := FilterDsl.Column(s, aliases).value;
    var s2 := SkipSpace(s1);
    if s2 != s1 && KeywordAt("IS", s2) {
      IsWord(s2);
      WordLeads(s1, WantOperator, Step(KeywordTok, 2, WantNull));
      var tail := NullTailLeads(s2[2..]);
      var (op, after) := NullTail(s2[2..]).value;
      LeadsThen(NextToken, s1, WantOperator, [Lexeme(KeywordTok, s2[..2])], s2[2..], WantNull, tail, after, WantJoiner);
      words := [Lexeme(KeywordTok, s2[..2])] + tail;
      assert words[1..] == tail;
    } else {
      words := ComparisonLeads(name, s1);
    }
  }

  /** Where a condition can be read, the two keyword tests agree on NOT at its start. */
  lemma NotAgrees(s: string, aliases: Option<seq<string>>)
    requires SimpleCondition(s, aliases).Some? && LooseKeywordAt("NOT", s)
    ensures KeywordAt("NOT", s)
  {
    LooseNotSpells(s);
    if |s| > 3 && IsWordChar(s[3]) {
      assert !IsNameChar(s[3]);
      NameIsNot(s);
      AfterColumn(s, aliases);
      assert false;
    }
  }

  lemma LooseNotSpells(s: string)
    requires LooseKeywordAt("NOT", s)
    ensures forall i :: 0 <= i < 3 ==> UpperAscii(s[i]) == "NOT"[i] && IsNameStart(s[i])
    ensures |s| > 3 ==> !IsNameChar(s[3])
  {
    forall i | 0 <= i < 3
      ensures UpperAscii(s[i]) == "NOT"[i] && IsNameStart(s[i])
    {
      assert LooseUpper(s[i]) == "NOT"[i];
    }
  }

  lemma NameIsNot(s: string)
    requires |s| > 3 && IsNameStart(s[0]) && IsNameChar(s[1]) && IsNameChar(s[2]) && !IsNameChar(s[3])
    ensures Name(s) == Some((s[..3], s[3..]))
  {
    SpanIs(NameChar, s[1..], 2);
  }

  /** No letter follows a column that a condition starts with. */
  lemma AfterColumn(s: string, aliases: Option<seq<string>>)
    requires SimpleCondition(s, aliases).Some? && Name(s).Some? && !StartsWith(s, '"')
    ensures var rest := Name(s).value.1; rest == "" || !IsWordChar(rest[0])
  {
    var rest := Name(s).value.1;
    NameSpan(s);
    if !StartsWith(rest, '.') {
      var s2 := SkipSpace(rest);
      if s2 == rest {
        OperatorWord(s2);
        OperatorStart(s2);
      } else {
        assert IsSpace(rest[0]);
      }
    }
  }

  lemma OperatorStart(t: string)
    requires Operator(t).Some? && !IsNameChar(t[0])
    ensures !IsWordChar(t[0])
  {
    if KeywordAt("ILIKE", t) {
      assert UpperAscii(t[0]) == "ILIKE"[0];
    } else if KeywordAt("LIKE", t) {
      assert UpperAscii(t[0]) == "LIKE"[0];
    }
  }

  lemma NoLooseNot(s: string, aliases: Option<seq<string>>)
    requires SimpleCondition(s, aliases).Some? && !KeywordAt("NOT", s)
    ensures !LooseKeywordAt("NOT", s)
  {
    if LooseKeywordAt("NOT", s) {
      NotAgrees(s, aliases);
    }
  }

  lemma WordHere(s: string, w: Wanted, step: Step, text: string, after: string)
    requires s != "" && !IsSpace(s[0]) && NextWord(s, w) == step && step.kind != BlankTok
    requires text == s[..step.length] && after == s[step.length..]
    ensures Leads(NextToken, s, w, [Lexeme(step.kind, text)], after, step.wanted)
  {
    NoSkip(s);
    WordLeads(s, w, step);
  }

  lemma ColumnLeads(
    s: string, aliases: Option<seq<string>>, name: FilterDsl.ColumnName, after: string, n: nat, text: string)
    requires FilterDsl.Column(s, aliases) == Some((name, after)) && !LooseKeywordAt("NOT", s)
    requires n == |s| - |after| && text == s[..n]
    ensures FilterDsl.Column(text, aliases) == Some((name, ""))
    ensures Leads(NextToken, s, WantColumn, [Lexeme(ColumnTok, text)], after, WantOperator)
  {
    ColumnTextEnds(s, aliases);
    WordHere(s, WantColumn, Step(ColumnTok, n, WantOperator), text, after);
  }

  lemma SimpleSpelled(
    name: FilterDsl.ColumnName, op: Op, value: Option<string>, word: Lexeme, tail: seq<Lexeme>,
    aliases: Option<seq<string>>)
    requires word.kind == ColumnTok && FilterDsl.Column(word.text, aliases) == Some((name, ""))
    requires TestWords(op, value, tail)
    ensures SimpleWords(name, op, value, [word] + tail, aliases)
  {
    assert ([word] + tail)[1..] == tail;
  }

  lemma SimpleLeads(s: string, aliases: Option<seq<string>>) returns (words: seq<Lexeme>)
    requires SimpleCondition(s, aliases).Some? && !KeywordAt("NOT", s)
    ensures var (simple, after) := SimpleCondition(s, aliases).value;
            && SimpleWords(simple.column, simple.op, simple.value, words, aliases)
            && Leads(NextToken, s, WantColumn, words, after, WantJoiner)
  {
    var (name, s1) := FilterDsl.Column(s, aliases).value;
    var text := s[..|s| - |s1|];
    NoLooseNot(s, aliases);
    ColumnLeads(s, aliases, name, s1, |s| - |s1|, text);
    var tail := TestLeads(s, aliases);
    var (simple, after) := SimpleCondition(s, aliases).value;
    LeadsThen(NextToken, s, WantColumn, [Lexeme(ColumnTok, text)], s1, WantOperator, tail, after, WantJoiner);
    SimpleSpelled(name, simple.op, simple.value, Lexeme(ColumnTok, text), tail, aliases);
    words := [Lexeme(ColumnTok, text)] + tail;
  }

  lemma NotWord(s: string)
    requires KeywordAt("NOT", s)
    ensures SkipSpace(s) == s && Upper(s[..3]) == "NOT"
    ensures Leads(NextToken, s, WantColumn, [Lexeme(KeywordTok, s[..3])], s[3..], WantColumn)
  {
    KeywordWord("NOT", s);
    NoSkip(s);
    WordLeads(s, WantColumn, Step(KeywordTok, 3, WantColumn));
  }

  /** A condition written `NOT` with a second NOT where its column should be. */
  predicate DoubledNot(s: string) {
    KeywordAt("NOT", s) && KeywordAt("NOT", SkipSpace(s[3..]))
  }

  lemma ConditionLeads(s: string, logic: Option<Logic>, aliases: Option<seq<string>>) returns (words: seq<Lexeme>)
    requires ReadCondition(s, logic, aliases).Some? && !DoubledNot(s)
    ensures var (c, after) := ReadCondition(s, logic, aliases).value;
            && ConditionWords(c, words, aliases)
            && Leads(NextToken, s, WantColumn, words, after, WantJoiner)
  {
    if KeywordAt("NOT", s) {
      var s1 := SkipSpace(s[3..]);
      NotWord(s);
      SkipLeads(s[3..], WantColumn);
      var tail := SimpleLeads(s1, aliases);
      var after := SimpleCondition(s1, aliases).value.1;
      var word := [Lexeme(KeywordTok, s[..3])];
      LeadsFrom(NextToken, s[3..], WantColumn, s1, WantColumn, tail, after, WantJoiner);
      LeadsThen(NextToken, s, WantColumn, word, s[3..], WantColumn, tail, after, WantJoiner);
      words := word + tail;
      assert words[1..] == tail;
    } else {
      words := SimpleLeads(s, aliases);
    }
  }

  lemma DoubledNotWords(s: string)
    requires DoubledNot(s)
    ensures var words := Lexemes(NextToken, s, WantColumn).words;
            |words| > 1 && words[0].kind == KeywordTok && words[1].kind == KeywordTok
  {
    var s1 := SkipSpace(s[3..]);
    NotWord(s);
    SkipLeads(s[3..], WantColumn);
    NotWord(s1);
    assert Lexemes(NextToken, s[3..], WantColumn).words == Lexemes(NextToken, s1, WantColumn).words;
  }

  // ---- Whole filters ----

  function Width(c: Condition): nat {
    (if c.not then 1 else 0) + if c.op.IsNotNull? then 4 else 3
  }

  lemma ConditionWidth(c: Condition, words: seq<Lexeme>, aliases: Option<seq<string>>)
    requires ConditionWords(c, words, aliases)
    ensures |words| == Width(c)
  {
  }

  /** The words of a filter: each condition's in order, AND or OR between them, and nothing else. */
  ghost predicate FilterWords(cs: seq<Condition>, words: seq<Lexeme>, aliases: Option<seq<string>>) {
    if cs == [] then words == []
    else
      var n := Width(cs[0]);
      && n <= |words| && ConditionWords(cs[0], words[..n], aliases)
      && if |cs| == 1 then n == |words|
         else
           && n < |words| && cs[1].logic.Some? && IsKeyword(words[n], cs[1].logic.value.Text())
           && FilterWords(cs[1..], words[n + 1..], aliases)
  }

  /** Some condition from `s` on, after `done` others, is a doubled NOT. */
  predicate AnyDoubledNot(s: string, done: nat, aliases: Option<seq<string>>)
    requires done <= MAX_CONDITIONS
    decreases MAX_CONDITIONS - done
  {
    || DoubledNot(s)
    || (match ReadCondition(s, None, aliases)
        case None => false
        case Some((_, rest)) =>
          done < MAX_CONDITIONS
          && match Joiner(SkipSpace(rest))
             case None => false
             case Some((_, s2)) => AnyDoubledNot(s2, done + 1, aliases))
  }

  lemma LogicAside(s: string, logic: Option<Logic>, aliases: Option<seq<string>>)
    requires ReadCondition(s, logic, aliases).Some?
    ensures ReadCondition(s, None, aliases).Some?
    ensures ReadCondition(s, None, aliases).value.1 == ReadCondition(s, logic, aliases).value.1
    ensures ReadCondition(s, logic, aliases).value.0.logic == logic
  {
  }

  lemma JoinerWord(t: string)
    requires Joiner(t).Some?
    ensures var (logic, s2) := Joiner(t).value;
            var n := |logic.Text()|;
            && 0 < n <= |t| && !IsSpace(t[0]) && Upper(t[..n]) == logic.Text() && SkipSpace(t[n..]) == s2
            && NextWord(t, WantJoiner) == Step(KeywordTok, n, WantColumn)
  {
    var logic := Joiner(t).value.0;
    KeywordWord(logic.Text(), t);
    if logic == Or {
      assert UpperAscii(t[0]) == "OR"[0];
      NotLoose("AND", t, 0);
    }
  }

  lemma JoinerLeads(rest: string)
    requires Joiner(SkipSpace(rest)).Some?
    ensures var t := SkipSpace(rest);
            var (logic, s2) := Joiner(t).value;
            var n := |logic.Text()|;
            && n <= |t| && Upper(t[..n]) == logic.Text() && SkipSpace(s2) == s2
            && Leads(NextToken, rest, WantJoiner, [Lexeme(KeywordTok, t[..n])], s2, WantColumn)
  {
    var t := SkipSpace(rest);
    var (logic, s2) := Joiner(t).value;
    JoinerWord(t);
    JoinerThenSpace(rest, t, |logic.Text()|, s2);
  }

  lemma JoinerThenSpace(rest: string, t: string, n: nat, s2: string)
    requires t == SkipSpace(rest) && 0 < n <= |t| && !IsSpace(t[0]) && SkipSpace(t[n..]) == s2
    requires NextWord(t, WantJoiner) == Step(KeywordTok, n, WantColumn)
    ensures SkipSpace(s2) == s2 && Leads(NextToken, rest, WantJoiner, [Lexeme(KeywordTok, t[..n])], s2, WantColumn)
  {
    WordLeads(rest, WantJoiner, Step(KeywordTok, n, WantColumn));
    SkipLeads(t[n..], WantColumn);
    SkipSkips(t[n..]);
    var word := [Lexeme(KeywordTok, t[..n])];
    LeadsOn(NextToken, rest, WantJoiner, word, t[n..], WantColumn, s2, WantColumn);
  }

  lemma EndWords(rest: string)
    requires SkipSpace(rest) == ""
    ensures Lexemes(NextToken, rest, WantJoiner) == Lexed([], WantJoiner)
  {
    SkipLeads(rest, WantJoiner);
    LeadsToEnd(NextToken, rest, WantJoiner);
  }

  lemma LeadsToEnd(next: Lexer, s: string, w: Wanted)
    requires Leads(next, s, w, [], "", w)
    ensures Lexemes(next, s, w) == Lexed([], w)
  {
  }

  /** One step of the filter loop, seen by the tokenizer. */
  lemma JoinedWords(
    c: Condition, words: seq<Lexeme>, logic: Logic, joiner: Lexeme, more: seq<Condition>, rest: seq<Lexeme>,
    aliases: Option<seq<string>>)
    requires ConditionWords(c, words, aliases) && more != [] && more[0].logic == Some(logic)
    requires IsKeyword(joiner, logic.Text())
    ensures FilterWords([c] + more, words + ([joiner] + rest), aliases) <==> FilterWords(more, rest, aliases)
  {
    ConditionWidth(c, words, aliases);
    var all, n := words + ([joiner] + rest), Width(c);
    assert all[..n] == words && all[n] == joiner && all[n + 1..] == rest;
    assert ([c] + more)[1..] == more;
  }

  lemma LastWords(c: Condition, words: seq<Lexeme>, aliases: Option<seq<string>>)
    requires ConditionWords(c, words, aliases)
    ensures FilterWords([c], words, aliases)
  {
    ConditionWidth(c, words, aliases);
    assert words[..Width(c)] == words;
  }

  lemma DoubledNotFails(c: Condition, more: seq<Condition>, words: seq<Lexeme>, aliases: Option<seq<string>>)
    requires c.not && |words| > 1 && words[1].kind == KeywordTok
    ensures !FilterWords([c] + more, words, aliases)
  {
    var n := Width(c);
    if n <= |words| {
      assert words[..n][1..][0] == words[1];
      assert !ConditionWords(c, words[..n], aliases);
    }
  }

  /** What the tokenizer makes of the text `cs` was read from. */
  ghost predicate Agrees(s: string, done: nat, cs: seq<Condition>, aliases: Option<seq<string>>) {
    var lexed := Lexemes(NextToken, s, WantColumn);
    && done <= MAX_CONDITIONS
    && (FilterWords(cs, lexed.words, aliases) <==> !AnyDoubledNot(s, done, aliases))
    && (!AnyDoubledNot(s, done, aliases) ==> lexed.wanted == WantJoiner)
  }

  lemma AgreesLast(
    s: string, c: Condition, rest: string, logic: Option<Logic>, done: nat, aliases: Option<seq<string>>)
    requires ReadCondition(s, logic, aliases) == Some((c, rest)) && SkipSpace(rest) == "" && done <= MAX_CONDITIONS
    ensures Agrees(s, done, [c], aliases)
  {
    LogicAside(s, logic, aliases);
    FilterEnds(s, c, rest, logic, done, aliases);
  }

  lemma AgreesStep(
    s: string, c: Condition, rest: string, logic: Option<Logic>, more: seq<Condition>, done: nat,
    aliases: Option<seq<string>>)
    requires ReadCondition(s, logic, aliases) == Some((c, rest)) && Joiner(SkipSpace(rest)).Some?
    requires more != [] && more[0].logic == Some(Joiner(SkipSpace(rest)).value.0) && done < MAX_CONDITIONS
    requires Agrees(Joiner(SkipSpace(rest)).value.1, done + 1, more, aliases)
    ensures Agrees(s, done, [c] + more, aliases)
  {
    LogicAside(s, logic, aliases);
    DoubledNotGoesOn(s, rest, done, aliases);
    FilterStep(s, c, rest, logic, more, aliases);
  }

  lemma {:induction false} FilterAgrees(
    s: string, logic: Option<Logic>, before: seq<Condition>, aliases: Option<seq<string>>)
    returns (cs: seq<Condition>)
    requires |before| <= MAX_CONDITIONS && Conditions(s, logic, before, aliases).Some?
    ensures Conditions(s, logic, before, aliases) == Some(before + cs)
    ensures cs != [] && cs[0].logic == logic && Agrees(s, |before|, cs, aliases)
    decreases MAX_CONDITIONS - |before|
  {
    ConditionsGoOn(s, logic, before, aliases);
    var (c, rest) := ReadCondition(s, logic, aliases).value;
    LogicAside(s, logic, aliases);
    if SkipSpace(rest) == "" {
      AgreesLast(s, c, rest, logic, |before|, aliases);
      cs := [c];
    } else {
      var (next, s2) := Joiner(SkipSpace(rest)).value;
      var more := FilterAgrees(s2, Some(next), before + [c], aliases);
      AgreesStep(s, c, rest, logic, more, |before|, aliases);
      cs := [c] + more;
      ConcatAssoc(before, [c], more);
    }
  }

  lemma DoubledNotGoesOn(s: string, rest: string, done: nat, aliases: Option<seq<string>>)
    requires ReadCondition(s, None, aliases).Some? && ReadCondition(s, None, aliases).value.1 == rest
    requires done < MAX_CONDITIONS && Joiner(SkipSpace(rest)).Some?
    ensures AnyDoubledNot(s, done, aliases)
         == (DoubledNot(s) || AnyDoubledNot(Joiner(SkipSpace(rest)).value.1, done + 1, aliases))
  {
  }

  lemma FilterEnds(
    s: string, c: Condition, rest: string, logic: Option<Logic>, done: nat, aliases: Option<seq<string>>)
    requires ReadCondition(s, logic, aliases) == Some((c, rest)) && SkipSpace(rest) == "" && done <= MAX_CONDITIONS
    requires ReadCondition(s, None, aliases).Some? && ReadCondition(s, None, aliases).value.1 == rest
    ensures AnyDoubledNot(s, done, aliases) == DoubledNot(s)
    ensures FilterWords([c], Lexemes(NextToken, s, WantColumn).words, aliases) <==> !DoubledNot(s)
    ensures !DoubledNot(s) ==> Lexemes(NextToken, s, WantColumn).wanted == WantJoiner
  {
    assert Joiner("") == None;
    if DoubledNot(s) {
      DoubledNotWords(s);
      DoubledNotFails(c, [], Lexemes(NextToken, s, WantColumn).words, aliases);
      assert [c] + [] == [c];
    } else {
      var words := ConditionLeads(s, logic, aliases);
      EndWords(rest);
      assert words + [] == words;
      LastWords(c, words, aliases);
    }
  }

  lemma FilterStep(
    s: string, c: Condition, rest: string, logic: Option<Logic>, more: seq<Condition>, aliases: Option<seq<string>>)
    requires ReadCondition(s, logic, aliases) == Some((c, rest)) && Joiner(SkipSpace(rest)).Some?
    requires more != [] && more[0].logic == Some(Joiner(SkipSpace(rest)).value.0)
    ensures var lexed := Lexemes(NextToken, s, WantColumn);
            var later := Lexemes(NextToken, Joiner(SkipSpace(rest)).value.1, WantColumn);
            if DoubledNot(s) then !FilterWords([c] + more, lexed.words, aliases)
            else
              && (FilterWords([c] + more, lexed.words, aliases) <==> FilterWords(more, later.words, aliases))
              && lexed.wanted == later.wanted
  {
    if DoubledNot(s) {
      DoubledNotWords(s);
      DoubledNotFails(c, more, Lexemes(NextToken, s, WantColumn).words, aliases);
    } else {
      var words := ConditionLeads(s, logic, aliases);
      var t := SkipSpace(rest);
      var (next, s2) := Joiner(t).value;
      JoinerLeads(rest);
      var joiner := Lexeme(KeywordTok, t[..|next.Text()|]);
      LeadsThen(NextToken, s, WantColumn, words, rest, WantJoiner, [joiner], s2, WantColumn);
      var later := Lexemes(NextToken, s2, WantColumn).words;
      assert words + [joiner] + later == words + ([joiner] + later);
      JoinedWords(c, words, next, joiner, more, later, aliases);
    }
  }

  /**
   * For every filter the parser accepts: the tokenizer's words spell its
   * conditions in order, with no plain word among them, exactly when no
   * condition is written as a doubled NOT; and then it ends ready for a joiner.
   */
  lemma TokenizerAgrees(text: string, aliases: Option<seq<string>>)
    requires Parse(text, aliases).Some?
    ensures var all := Tokenize(text);
            && (FilterWords(Parse(text, aliases).value, Words(all.tokens, text), aliases)
                <==> !AnyDoubledNot(text, 0, aliases))
            && (!AnyDoubledNot(text, 0, aliases) ==> all.wanted == WantJoiner)
  {
    var cs := FilterAgrees(text, None, [], aliases);
    assert [] + cs == cs;
    TokenWords(NextToken, text, 0, WantColumn, None);
    assert text[0..] == text;
  }

  ghost predicate NoPlain(words: seq<Lexeme>) {
    forall i :: 0 <= i < |words| ==> words[i].kind != PlainTok
  }

  lemma NoPlainAround(words: seq<Lexeme>, n: nat)
    requires n < |words| && words[n].kind != PlainTok && NoPlain(words[..n]) && NoPlain(words[n + 1..])
    ensures NoPlain(words)
  {
    forall i | 0 <= i < |words|
      ensures words[i].kind != PlainTok
    {
      if i < n {
        assert words[i] == words[..n][i];
      } else if i > n {
        assert words[i] == words[n + 1..][i - n - 1];
      }
    }
  }

  /** The words of a filter are never plain. */
  lemma {:induction false} NoPlainWord(cs: seq<Condition>, words: seq<Lexeme>, aliases: Option<seq<string>>)
    requires FilterWords(cs, words, aliases)
    ensures NoPlain(words)
  {
    if cs != [] {
      var n := Width(cs[0]);
      NoPlainInCondition(cs[0], words[..n], aliases);
      if |cs| > 1 {
        NoPlainWord(cs[1..], words[n + 1..], aliases);
        NoPlainAround(words, n);
      } else {
        assert words[..n] == words;
      }
    }
  }

  lemma NoPlainAfter(word: Lexeme, words: seq<Lexeme>)
    requires word.kind != PlainTok && NoPlain(words)
    ensures NoPlain([word] + words)
  {
    assert forall i :: 1 <= i < |words| + 1 ==> ([word] + words)[i] == words[i - 1];
  }

  lemma NoPlainInTest(op: Op, value: Option<string>, words: seq<Lexeme>)
    requires TestWords(op, value, words)
    ensures NoPlain(words)
  {
  }

  lemma NoPlainInSimple(
    name: FilterDsl.ColumnName, op: Op, value: Option<string>, words: seq<Lexeme>, aliases: Option<seq<string>>)
    requires SimpleWords(name, op, value, words, aliases)
    ensures NoPlain(words)
  {
    NoPlainInTest(op, value, words[1..]);
    NoPlainAfter(words[0], words[1..]);
    assert [words[0]] + words[1..] == words;
  }

  lemma NoPlainInCondition(c: Condition, words: seq<Lexeme>, aliases: Option<seq<string>>)
    requires ConditionWords(c, words, aliases)
    ensures NoPlain(words)
  {
    var name := FilterDsl.ColumnName(c.column, c.join);
    if c.not {
      NoPlainInSimple(name, c.op, c.value, words[1..], aliases);
      NoPlainAfter(words[0], words[1..]);
      assert [words[0]] + words[1..] == words;
    } else {
      NoPlainInSimple(name, c.op, c.value, words, aliases);
    }
  }

  lemma OneIsBare()
    ensures FilterCompose.QuoteValue("1") + "" == "1"
  {
    assert Upper("1") != "AND" && Upper("1") != "OR" && Upper("1") != "NOT";
    assert !FilterCompose.NeedsQuotes("1");
  }

  lemma NotIsColumn(after: string)
    requires FilterCompose.Ends(after) && after != ""
    ensures FilterDsl.Column("NOT" + after, None) == Some((FilterDsl.ColumnName("NOT", None), after))
  {
    FilterCompose.NameRead("NOT", after);
  }

  lemma OperatorIsEq(after: string, value: string)
    requires after == "=" + " " + value
    ensures Operator(after) == Some((Eq, " " + value)) && !KeywordAt("IS", after) && !IsSpace(after[0])
  {
    FilterCompose.OperatorRead(Eq, value);
  }

  lemma OneIsRead()
    ensures ReadValue("1") == Some(("1", ""))
  {
    FilterCompose.ValueRead("1", "");
    OneIsBare();
  }

  lemma NotEqualsOne(s: string, after: string, value: string)
    requires s == "NOT" + (" " + after) && after == "=" + " " + value && value == "1"
    ensures SimpleCondition(s, None) == Some((Simple(FilterDsl.ColumnName("NOT", None), Eq, Some(value)), ""))
  {
    NotIsColumn(" " + after);
    OperatorIsEq(after, value);
    OneIsRead();
    EqualsRead(s, FilterDsl.ColumnName("NOT", None), after, value, None);
  }

  lemma EqualsRead(
    s: string, name: FilterDsl.ColumnName, after: string, value: string, aliases: Option<seq<string>>)
    requires FilterDsl.Column(s, aliases) == Some((name, " " + after)) && after != "" && !IsSpace(after[0])
    requires !KeywordAt("IS", after) && Operator(after) == Some((Eq, " " + value))
    requires value != "" && !IsSpace(value[0]) && ReadValue(value) == Some((value, ""))
    ensures SimpleCondition(s, aliases) == Some((Simple(name, Eq, Some(value)), ""))
  {
    FilterCompose.SkipOne(after);
    FilterCompose.SkipOne(value);
    FilterCompose.ComparisonRead(s, name, Eq, value, after, value, "", aliases);
  }

  lemma NotNotSplit(text: string, s1: string, after: string)
    requires text == "NOT" + (" " + s1) && s1 == "NOT" + (" " + after) && after != "" && !IsSpace(after[0])
    ensures KeywordAt("NOT", text) && NeedSpace(text[3..]) == Some(s1) && KeywordAt("NOT", s1)
  {
    FilterCompose.NotStarts(s1, " " + after);
    FilterCompose.NotRead(text, s1);
  }

  /** The text that tells the two apart: a column named NOT, negated, is accepted. */
  lemma ColumnNamedNot() returns (text: string)
    ensures text == "NOT NOT = 1"
    ensures Parse(text, None) == Some([Condition(None, true, "NOT", None, Eq, Some("1"))])
    ensures AnyDoubledNot(text, 0, None)
  {
    text := NegatedText();
    var s1, after := NegatedRest(text);
    NotNotSplit(text, s1, after);
    assert after == "=" + " " + "1";
    NotEqualsOne(s1, after, "1");
    SingleNegated(text, s1, Simple(FilterDsl.ColumnName("NOT", None), Eq, Some("1")), None);
  }

  /** And so is any column of a table whose alias is spelled NOT, unquoted. */
  lemma AliasNamedNot() returns (text: string)
    ensures text == "NOT not.x = 1"
    ensures Parse(text, Some(["not"])) == Some([Condition(None, true, "x", Some(0), Eq, Some("1"))])
    ensures AnyDoubledNot(text, 0, Some(["not"]))
  {
    var s1, rest, after;
    text, s1, rest, after := AliasText();
    NotOfAlias(text, s1, rest);
    AliasEqualsOne(s1, after, "1");
    SingleNegated(text, s1, Simple(FilterDsl.ColumnName("x", Some(0)), Eq, Some("1")), Some(["not"]));
  }

  lemma AliasText() returns (text: string, s1: string, rest: string, after: string)
    ensures text == "NOT not.x = 1" && !TooLong(text)
    ensures after == "=" + " " + "1" && rest == "." + ("x" + (" " + after)) && s1 == "not" + rest
    ensures text == "NOT" + (" " + s1)
  {
    after := "=" + " " + "1";
    rest := "." + ("x" + (" " + after));
    s1 := "not" + rest;
    text := "NOT" + (" " + s1);
    ShortText(text);
  }

  lemma NotOfAlias(text: string, s1: string, rest: string)
    requires s1 == "not" + rest && rest != "" && rest[0] == '.' && text == "NOT" + (" " + s1)
    ensures KeywordAt("NOT", text) && NeedSpace(text[3..]) == Some(s1) && KeywordAt("NOT", s1)
  {
    AliasIsNot(s1, rest);
    FilterCompose.NotRead(text, s1);
  }

  lemma AliasIsNot(s: string, rest: string)
    requires s == "not" + rest && rest != "" && rest[0] == '.'
    ensures KeywordAt("NOT", s) && !IsSpace(s[0])
  {
    assert s[0] == 'n' && s[1] == 'o' && s[2] == 't' && s[3] == '.';
  }

  lemma AliasEqualsOne(s: string, after: string, value: string)
    requires s == "not" + ("." + ("x" + (" " + after))) && after == "=" + " " + value && value == "1"
    ensures SimpleCondition(s, Some(["not"]))
         == Some((Simple(FilterDsl.ColumnName("x", Some(0)), Eq, Some(value)), ""))
  {
    AliasColumn(s, " " + after);
    OperatorIsEq(after, value);
    OneIsRead();
    EqualsRead(s, FilterDsl.ColumnName("x", Some(0)), after, value, Some(["not"]));
  }

  lemma AliasColumn(s: string, rest: string)
    requires s == "not" + ("." + ("x" + rest)) && rest != "" && FilterCompose.Ends(rest)
    ensures FilterDsl.Column(s, Some(["not"])) == Some((FilterDsl.ColumnName("x", Some(0)), rest))
  {
    FilterCompose.NameRead("not", "." + ("x" + rest));
    FilterCompose.NameRead("x", rest);
    assert IndexOf(["not"], "not") == Some(0);
    FilterCompose.QualifiedColumn(s, ["not"], "not", "x" + rest, "x", rest, 0);
  }

  lemma NegatedText() returns (text: string)
    ensures text == "NOT NOT = 1" && !TooLong(text)
  {
    text := "NOT NOT = 1";
    ShortText(text);
  }

  lemma NegatedRest(text: string) returns (s1: string, after: string)
    requires text == "NOT NOT = 1"
    ensures after == "= 1" && s1 == "NOT" + (" " + after) && text == "NOT" + (" " + s1)
  {
    after := "= 1";
    s1 := "NOT" + (" " + after);
    assert text[4..] == s1;
  }

  lemma NegatedRead(s: string, s1: string, simple: Simple, aliases: Option<seq<string>>)
    requires KeywordAt("NOT", s) && NeedSpace(s[3..]) == Some(s1) && SimpleCondition(s1, aliases) == Some((simple, ""))
    ensures ReadCondition(s, None, aliases) == Some((ToCondition(None, true, simple), ""))
  {
  }

  lemma SingleNegated(s: string, s1: string, simple: Simple, aliases: Option<seq<string>>)
    requires KeywordAt("NOT", s) && NeedSpace(s[3..]) == Some(s1) && KeywordAt("NOT", s1) && !TooLong(s)
    requires SimpleCondition(s1, aliases) == Some((simple, ""))
    ensures Parse(s, aliases) == Some([ToCondition(None, true, simple)]) && AnyDoubledNot(s, 0, aliases)
  {
    var c := ToCondition(None, true, simple);
    var before: seq<Condition> := [];
    NegatedRead(s, s1, simple, aliases);
    FilterCompose.ConditionsLast(s, None, before, aliases, c);
    assert before + [c] == [c];
    assert DoubledNot(s);
  }

  lemma ShortText(s: string)
    requires |s| <= 20 && forall i :: 0 <= i < |s| ==> s[i] < '\U{80}'
    ensures !TooLong(s)
  {
    TooLongCountsBytes(s);
    FilterCompose.AsciiLength(s);
  }
}

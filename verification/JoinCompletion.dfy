/** What the text field offers where an accepted text is cut off: what the language has there. */
module JoinCompletion {
  import opened Outcomes
  import opened Text
  import opened JoinTypes
  import opened Grammar = JoinGrammar
  import opened JoinSpelling
  import opened JoinSpellingText
  import opened Scanner = JoinScanner
  import opened Agreement = JoinScanAgreement
  import opened JoinSlots

  // ---- The words of a text that is cut off ----

  /** What has been typed of the next word: nothing, or letters that start an unquoted name or a keyword. */
  predicate Typable(typed: string, afterDot: bool) {
    typed == ""
    || (IsBareName(typed) && if afterDot then WordKind(typed) == Name else WordKind(typed) != Scanner.Plain)
  }

  function TypedWord(typed: string): seq<Scanner.Word> {
    if typed == "" then [] else [Scanner.Word(WordKind(typed), typed)]
  }

  lemma TypedWords(typed: string)
    requires typed == "" || IsBareName(typed)
    ensures Words(NextToken, typed) == TypedWord(typed)
  {
    if typed != "" {
      BareToken(typed);
      WordsOfOne(NextToken, typed, WordKind(typed));
    }
  }

  lemma BareToken(word: string)
    requires IsBareName(word)
    ensures NextToken(word) == Lexed(WordKind(word), |word|)
  {
    SpanIs(NameChar, word[1..], |word| - 1);
    assert word[..|word|] == word;
  }

  lemma WordsOfOne(next: Lexer, word: string, kind: Kind)
    requires word != "" && next(word) == Lexed(kind, |word|) && kind != Kind.Space
    ensures Words(next, word) == [Scanner.Word(kind, word)]
  {
    assert word[..|word|] == word && word[|word|..] == "";
  }

  function WordsIn(s: string): seq<Scanner.Word> {
    Words(NextToken, s)
  }

  lemma WordsAfterBlank(b: string, rest: string)
    requires Blank(b)
    ensures WordsIn(b + rest) == WordsIn(rest)
  {
    BlankPassed(b, rest);
    WordsSkipSpace(b + rest);
    WordsSkipSpace(rest);
  }

  lemma WordsAfterToken(t: Grammar.Token, rest: string)
    requires JoinSpellingText.Plain(t) && Follows(t, rest)
    ensures WordsIn(TokenText(t) + rest) == [WordOf(t)] + WordsIn(rest)
  {
    var s := TokenText(t) + rest;
    TokenLexes(t, rest);
    assert s[0] == TokenText(t)[0];
    PlainIsReadable(t);
    LexersAgree(s);
    assert s[|TokenText(t)|..] == rest;
  }

  lemma PlainIsReadable(t: Grammar.Token)
    requires JoinSpellingText.Plain(t)
    ensures Readable(t)
  {
  }

  lemma WordsReadTokens()
    ensures ReadsTokens(WordsIn, WordOf)
  {
    forall b, rest | Blank(b)
      ensures WordsIn(b + rest) == WordsIn(rest)
    {
      WordsAfterBlank(b, rest);
    }
    forall t, rest | JoinSpellingText.Plain(t) && Follows(t, rest)
      ensures WordsIn(TokenText(t) + rest) == [WordOf(t)] + WordsIn(rest)
    {
      WordsAfterToken(t, rest);
    }
  }

  lemma {:induction false} ItemsAreWords(toks: seq<Grammar.Token>)
    ensures Items(WordOf, toks) == WordsOf(toks, 0)
  {
    if toks != [] {
      ItemsAreWords(toks[1..]);
    }
  }

  /** The words of a text that stops after `toks` are theirs, and what has been typed. */
  lemma CutWords(toks: seq<Grammar.Token>, gaps: seq<string>, blank: string, typed: string)
    requires AllPlain(toks) && |gaps| == |toks| && Apart(toks, gaps, blank + typed) && Blank(blank)
    requires typed == "" || IsBareName(typed)
    ensures WordsIn(Written(toks, gaps) + (blank + typed)) == WordsOf(toks, 0) + TypedWord(typed)
  {
    WordsReadTokens();
    WrittenReads(WordsIn, WordOf, toks, gaps, blank + typed);
    WordsAfterBlank(blank, typed);
    TypedWords(typed);
    ItemsAreWords(toks);
  }

  // ---- Whether it ends in a space ----

  predicate EndsSpaced(s: string) {
    s != "" && IsSpace(s[|s| - 1])
  }

  lemma PlainIsSolid(t: Grammar.Token)
    requires JoinSpellingText.Plain(t)
    ensures WordOf(t).text == TokenText(t) && TokenText(t) != "" && !EndsSpaced(TokenText(t))
  {
  }

  /** A lexer whose space tokens end in a space; the scanner's is one. */
  ghost predicate SeesSpaces(next: Lexer) {
    forall s :: s != "" && next(s).kind == Kind.Space ==> 0 < next(s).length <= |s| && IsSpace(s[next(s).length - 1])
  }

  lemma NextTokenSeesSpaces()
    ensures SeesSpaces(NextToken)
  {
    forall s | s != "" && NextToken(s).kind == Kind.Space
      ensures 0 < NextToken(s).length <= |s| && IsSpace(s[NextToken(s).length - 1])
    {
      SpaceToken(s);
    }
  }

  lemma SpaceToken(s: string)
    requires s != "" && NextToken(s).kind == Kind.Space
    ensures 0 < NextToken(s).length <= |s| && IsSpace(s[NextToken(s).length - 1])
  {
    if IsSpace(s[0]) {
      assert CharClass.Space.Has(s[Span(CharClass.Space, s) - 1]);
    } else {
      assert false;
    }
  }

  lemma {:induction false} SpaceEnds(next: Lexer, text: string, i: nat)
    requires Advances(next) && SeesSpaces(next) && i < |text| && EndsInSpace(TokensFrom(next, text, i))
    ensures EndsSpaced(text)
    decreases |text| - i
  {
    var t := next(text[i..]);
    var j := i + t.length;
    var tokens, later := TokensFrom(next, text, i), TokensFrom(next, text, j);
    assert tokens == [Token(t.kind, i, j)] + later;
    if j < |text| {
      LastWordEnds(next, text, j);
      assert tokens[|tokens| - 1] == later[|later| - 1];
      SpaceEnds(next, text, j);
    } else {
      assert text[i..][t.length - 1] == text[|text| - 1];
    }
  }

  lemma SameEnd(text: string, end: string)
    requires end != "" && EndsWith(text, end)
    ensures EndsSpaced(text) <==> EndsSpaced(end)
  {
    assert text[|text| - |end|..][|end| - 1] == text[|text| - 1];
  }

  predicate EndsSolid(words: seq<Scanner.Word>) {
    words != [] ==> words[|words| - 1].text != "" && !EndsSpaced(words[|words| - 1].text)
  }

  lemma SpaceIsSeen(next: Lexer, text: string)
    requires Advances(next) && SeesSpaces(next) && EndsSolid(Words(next, text))
    ensures EndsInSpace(TokensFrom(next, text, 0)) <==> EndsSpaced(text)
  {
    if text != "" {
      LastWordEnds(next, text, 0);
      assert text[0..] == text;
      if EndsInSpace(TokensFrom(next, text, 0)) {
        SpaceEnds(next, text, 0);
      } else {
        var words := Words(next, text);
        SameEnd(text, words[|words| - 1].text);
      }
    }
  }

  // ---- What is being typed ----

  /** A dotted name is being typed at `k`: a space after the dot ends it unless letters follow. */
  predicate Dotted(toks: seq<Grammar.Token>, k: nat, spaced: bool)
    requires k <= |toks|
  {
    AfterDot(toks, k) && !spaced
  }

  predicate IsDot(w: Scanner.Word) {
    w.kind == Punct && w.text != "" && w.text[0] == '.'
  }

  /** The word typed last, where there is one. */
  predicate Typed(tail: seq<Scanner.Word>, afterDot: bool) {
    |tail| <= 1 && (tail != [] ==> tail[0].kind == Name || (!afterDot && tail[0].kind == Keyword))
  }

  function TypedText(tail: seq<Scanner.Word>): string {
    if tail == [] then "" else tail[0].text
  }

  lemma TypingDotted(words: seq<Scanner.Word>, tail: seq<Scanner.Word>)
    requires |words| > 1 && words[|words| - 1] == WordOf(Symbol('.')) && words[|words| - 2].kind == Name
    requires Typed(tail, true)
    ensures var k := |words|;
            TypingAt(words + tail, false) == Typing(k - 2, Some(Unquote(words[k - 2].text)), TypedText(tail))
  {
    assert words + [] == words;
  }

  lemma TypingPlain(words: seq<Scanner.Word>, tail: seq<Scanner.Word>, spaced: bool)
    requires Typed(tail, false) && (tail != [] ==> !spaced)
    requires words != [] && !spaced ==> var last := words[|words| - 1];
             !IsDot(last) && (tail == [] ==> last.kind != Name && last.kind != Keyword)
    ensures TypingAt(words + tail, spaced) == Typing(|words|, None, TypedText(tail))
  {
    assert words + [] == words;
  }

  lemma PlainDot(t: Grammar.Token)
    requires JoinSpellingText.Plain(t)
    ensures IsDot(WordOf(t)) <==> t == Symbol('.')
    ensures t.Symbol? ==> WordOf(t).kind != Name && WordOf(t).kind != Keyword
  {
  }

  lemma PlainName(t: Grammar.Token)
    requires JoinSpellingText.Plain(t) && IsName(t)
    ensures WordOf(t).kind == Name && Unquote(WordOf(t).text) == t.text
  {
    PlainIsReadable(t);
    NameIsUnquoted(t);
  }

  /** `words` ends in the words of the last two of `toks`. */
  predicate EndsAlike(words: seq<Scanner.Word>, toks: seq<Grammar.Token>) {
    && |words| == |toks|
    && (|toks| > 0 ==> words[|toks| - 1] == WordOf(toks[|toks| - 1]))
    && (|toks| > 1 ==> words[|toks| - 2] == WordOf(toks[|toks| - 2]))
  }

  lemma WordsEndAlike(toks: seq<Grammar.Token>)
    ensures EndsAlike(WordsOf(toks, 0), toks)
  {
    if |toks| > 0 {
      WordsOfAt(toks, 0, |toks| - 1);
    }
    if |toks| > 1 {
      WordsOfAt(toks, 0, |toks| - 2);
    }
  }

  lemma DottedIs(toks: seq<Grammar.Token>, words: seq<Scanner.Word>, tail: seq<Scanner.Word>)
    requires AllPlain(toks) && EndsAlike(words, toks) && Typed(tail, true) && AfterDot(toks, |toks|)
    requires |toks| > 1 && IsName(toks[|toks| - 2])
    ensures var k := |toks|; TypingAt(words + tail, false) == Typing(k - 2, Some(toks[k - 2].text), TypedText(tail))
  {
    PlainName(toks[|toks| - 2]);
    TypingDotted(words, tail);
  }

  lemma UndottedIs(toks: seq<Grammar.Token>, words: seq<Scanner.Word>, tail: seq<Scanner.Word>, spaced: bool)
    requires AllPlain(toks) && EndsAlike(words, toks) && Typed(tail, false) && (tail != [] ==> !spaced)
    requires AfterDot(toks, |toks|) ==> spaced
    requires tail == [] && !spaced && toks != [] ==> toks[|toks| - 1].Symbol?
    ensures TypingAt(words + tail, spaced) == Typing(|toks|, None, TypedText(tail))
  {
    if toks != [] {
      PlainDot(toks[|toks| - 1]);
    }
    TypingPlain(words, tail, spaced);
  }

  lemma TypingIs(toks: seq<Grammar.Token>, words: seq<Scanner.Word>, tail: seq<Scanner.Word>, spaced: bool)
    requires AllPlain(toks) && EndsAlike(words, toks)
    requires Typed(tail, AfterDot(toks, |toks|)) && (tail != [] ==> !spaced)
    requires AfterDot(toks, |toks|) ==> |toks| > 1 && IsName(toks[|toks| - 2])
    requires tail == [] && !spaced && toks != [] ==> toks[|toks| - 1].Symbol?
    ensures var k, partial := |toks|, TypedText(tail);
            TypingAt(words + tail, spaced)
            == if Dotted(toks, k, spaced) then Typing(k - 2, Some(toks[k - 2].text), partial)
               else Typing(k, None, partial)
  {
    if Dotted(toks, |toks|, spaced) {
      DottedIs(toks, words, tail);
    } else {
      UndottedIs(toks, words, tail, spaced);
    }
  }

  // ---- What is asked for ----

  /** What the language has at a place, as completion says it; keywords are offered while a word is typed. */
  function Asked(role: Role, spaced: bool, typed: bool): Wanted {
    match role
    case TableName(_) => Table
    case RefStart(_) => Qualifier
    case RefDot(_) => Qualifier
    case RefColumn(_) => if spaced then Qualifier else Column
    case PastTable(start) => if typed then Keywords(if start then JOIN_WORDS else ["ON"]) else Nothing
    case PastRef => if typed then Keywords(["AND"] + JOIN_WORDS) else Nothing
    case AliasName(_) => Nothing
    case Outside => Nothing
  }

  lemma AsksHere(slot: Slot, st: State, spaced: bool, partial: string)
    requires Suits(slot, st) && (slot.role.RefColumn? ==> spaced)
    ensures WantedIn(st, Typing(0, None, partial)) == Asked(slot.role, spaced, partial != "")
  {
  }

  lemma AsksDotted(slot: Slot, st: State, qualifier: string, partial: string)
    requires SuitsDotted(slot, st)
    ensures WantedIn(st, Typing(0, Some(qualifier), partial)) == Asked(slot.role, false, partial != "")
  {
  }

  /** What has been typed up to the cut, after `toks` and before the place `slot`. */
  datatype Cut = Cut(toks: seq<Grammar.Token>, gaps: seq<string>, blank: string, typed: string) {
    predicate Valid() {
      && AllPlain(toks) && |gaps| == |toks| && Apart(toks, gaps, blank + typed) && Blank(blank)
      && Typable(typed, AfterDot(toks, |toks|))
      && (toks != [] && blank == "" ==> toks[|toks| - 1].Symbol?)
    }

    /** Whether the text ends in the space before the place. */
    predicate Spaced() {
      blank != "" && typed == ""
    }

    function Text(): string
      requires |gaps| == |toks|
    {
      Written(toks, gaps) + (blank + typed)
    }
  }

  lemma {:induction false} WrittenEnds(toks: seq<Grammar.Token>, gaps: seq<string>)
    requires toks != [] && |gaps| == |toks|
    ensures EndsWith(Written(toks, gaps), TokenText(toks[|toks| - 1]))
  {
    var first, more := gaps[0] + TokenText(toks[0]), Written(toks[1..], gaps[1..]);
    assert Written(toks, gaps) == first + more;
    if |toks| > 1 {
      WrittenEnds(toks[1..], gaps[1..]);
      EndsAfter(first, more, TokenText(toks[|toks| - 1]));
    }
  }

  lemma EndsAfter(first: string, more: string, end: string)
    requires EndsWith(more, end)
    ensures EndsWith(first + more, end)
  {
  }

  lemma CutEnds(cut: Cut)
    requires cut.Valid()
    ensures EndsSpaced(cut.Text()) <==> cut.Spaced()
  {
    var Cut(toks, gaps, blank, typed) := cut;
    if typed != "" {
      LastEnds(Written(toks, gaps) + blank, typed);
      ConcatAssoc(Written(toks, gaps), blank, typed);
    } else if blank != "" {
      LastEnds(Written(toks, gaps), blank);
      assert blank + "" == blank;
    } else {
      assert cut.Text() == Written(toks, gaps);
      if toks != [] {
        PlainIsSolid(toks[|toks| - 1]);
        WrittenEnds(toks, gaps);
        SameEnd(Written(toks, gaps), TokenText(toks[|toks| - 1]));
      }
    }
  }

  lemma LastEnds(a: string, b: string)
    requires b != ""
    ensures EndsSpaced(a + b) <==> EndsSpaced(b)
  {
  }

  lemma TypedEnds(toks: seq<Grammar.Token>, words: seq<Scanner.Word>, typed: string)
    requires AllPlain(toks) && EndsAlike(words, toks) && (typed == "" || IsBareName(typed))
    ensures EndsSolid(words + TypedWord(typed))
  {
    if typed == "" {
      assert words + [] == words;
      if toks != [] {
        PlainIsSolid(toks[|toks| - 1]);
      }
    }
  }

  /** The words of the cut text and how it ends. */
  lemma CutReads(cut: Cut)
    requires cut.Valid()
    ensures var text, words := cut.Text(), WordsOf(cut.toks, 0);
            && EndsAlike(words, cut.toks) && WordsIn(text) == words + TypedWord(cut.typed)
            && TypingIn(NextToken, text) == TypingAt(words + TypedWord(cut.typed), cut.Spaced())
  {
    CutWords(cut.toks, cut.gaps, cut.blank, cut.typed);
    WordsEndAlike(cut.toks);
    TypedEnds(cut.toks, WordsOf(cut.toks, 0), cut.typed);
    NextTokenAdvances();
    NextTokenSeesSpaces();
    SpaceIsSeen(NextToken, cut.Text());
    CutEnds(cut);
  }

  lemma TakeFirst<T>(a: seq<T>, b: seq<T>, n: nat)
    requires n <= |a|
    ensures (a + b)[..n] == a[..n]
  {
  }

  lemma WordsTake(toks: seq<Grammar.Token>, n: nat)
    requires n <= |toks|
    ensures WordsOf(toks, 0)[..n] == WordsOf(toks[..n], 0)
  {
    WordsOfBoth(toks[..n], toks[n..]);
    assert toks == toks[..n] + toks[n..];
  }

  /** The state completion answers from: a dotted name is left out of it. */
  lemma CutContext(all: seq<Grammar.Token>, cut: Cut, before: nat, st: State)
    requires cut.Valid() && st == START && |cut.toks| <= |all| && cut.toks == all[..|cut.toks|]
    requires before <= |cut.toks| && TypingIn(NextToken, cut.Text()).before == before
    ensures Context(NextToken, cut.Text()) == After(all[..before], st)
  {
    CutReads(cut);
    WordsTake(cut.toks, before);
    TakeFirst(WordsOf(cut.toks, 0), TypedWord(cut.typed), before);
    assert cut.toks[..before] == all[..before];
    ContextIs(NextToken, cut.Text(), WordsOf(all[..before], 0), st);
  }

  lemma WordTyped(typed: string, afterDot: bool)
    requires Typable(typed, afterDot)
    ensures Typed(TypedWord(typed), afterDot) && TypedText(TypedWord(typed)) == typed
    ensures TypedWord(typed) == [] <==> typed == ""
  {
  }

  /** What completion is typing at a cut of `all`. */
  lemma CutTyping(all: seq<Grammar.Token>, slot: Slot, st: State, cut: Cut)
    requires cut.Valid() && |cut.toks| < |all| && cut.toks == all[..|cut.toks|] && Holds(all, |cut.toks|, slot, st)
    ensures var k := |cut.toks|;
            TypingIn(NextToken, cut.Text())
            == if Dotted(all, k, cut.Spaced()) then Typing(k - 2, Some(all[k - 2].text), cut.typed)
               else Typing(k, None, cut.typed)
  {
    CutReads(cut);
    WordTyped(cut.typed, AfterDot(cut.toks, |cut.toks|));
    TypingIs(cut.toks, WordsOf(cut.toks, 0), TypedWord(cut.typed), cut.Spaced());
  }

  /** Completion answers what the place before the cut asks for. */
  lemma CutAnswers(all: seq<Grammar.Token>, slot: Slot, st: State, cut: Cut)
    requires cut.Valid() && |cut.toks| < |all| && cut.toks == all[..|cut.toks|] && st == START
    requires Holds(all, |cut.toks|, slot, st) && Stands(all, |cut.toks|, slot)
    ensures var context, typing := Context(NextToken, cut.Text()), TypingIn(NextToken, cut.Text());
            && WantedIn(context, typing) == Asked(slot.role, cut.Spaced(), cut.typed != "")
            && OtherSide(context) == AsRef(slot.other) && typing.partial == cut.typed
            && (slot.role.RefColumn? && !cut.Spaced() ==> typing.qualifier == Some(slot.role.ref.qualifier))
  {
    var k := |cut.toks|;
    CutTyping(all, slot, st, cut);
    if Dotted(all, k, cut.Spaced()) {
      CutContext(all, cut, k - 2, st);
      AsksDotted(slot, After(all[..k - 2], st), all[k - 2].text, cut.typed);
    } else {
      CutContext(all, cut, k, st);
      AsksHere(slot, After(all[..k], st), cut.Spaced(), cut.typed);
    }
  }

  /**
   * Wherever the spelling of a definition is cut between two tokens, and whatever
   * has been typed there, completion asks for what the place is for.
   */
  lemma CompletionFits(def: JoinDef, ch: Choices, cut: Cut)
    requires WellFormed(def) && Fits(def, ch) && cut.Valid()
    requires |cut.toks| < |Spelled(def, ch)| && cut.toks == Spelled(def, ch)[..|cut.toks|]
    ensures |Slots(def, ch)| == |Spelled(def, ch)|
    ensures var slot := Slots(def, ch)[|cut.toks|];
            var context, typing := Context(NextToken, cut.Text()), TypingIn(NextToken, cut.Text());
            && WantedIn(context, typing) == Asked(slot.role, cut.Spaced(), cut.typed != "")
            && OtherSide(context) == AsRef(slot.other) && typing.partial == cut.typed
            && (slot.role.RefColumn? && !cut.Spaced() ==> typing.qualifier == Some(slot.role.ref.qualifier))
  {
    var st := START;
    var _ := SlotsPlaced(def, ch, st);
    CutAnswers(Spelled(def, ch), Slots(def, ch)[|cut.toks|], st, cut);
  }

  // ---- What the grammar reads at a place ----

  lemma RefIsRead(toks: seq<Grammar.Token>, k: nat, ref: Reference)
    requires RefAt(toks, k, ref)
    ensures ColRef(toks[k..]) == Success((ref, toks[k + 3..]))
  {
    var s := toks[k..];
    assert s[0] == toks[k] && s[1] == toks[k + 1] && s[2] == toks[k + 2];
    assert s[1..] == toks[k + 1..] && s[1..][1..] == toks[k + 2..] && toks[k + 2..][1..] == toks[k + 3..];
  }

  lemma SidesAreRead(toks: seq<Grammar.Token>, k: nat, first: Reference, second: Reference)
    requires RefAt(toks, k, first) && k + 3 < |toks| && toks[k + 3] == Symbol('=') && RefAt(toks, k + 4, second)
    ensures Sides(toks[k..]) == Success((first, second, toks[k + 7..]))
  {
    RefIsRead(toks, k, first);
    RefIsRead(toks, k + 4, second);
    assert toks[k + 3..][0] == Symbol('=') && toks[k + 3..][1..] == toks[k + 4..];
  }

  /** What the grammar reads from the token at `k` on. */
  ghost predicate ReadAt(toks: seq<Grammar.Token>, k: nat, slot: Slot)
    requires k < |toks|
  {
    match slot.role
    case TableName(name) => NameToken(toks[k..]) == Success((name, toks[k + 1..]))
    case AliasName(alias) => NameToken(toks[k..]) == Success((alias, toks[k + 1..]))
    case RefStart(ref) =>
      && k + 3 < |toks| && ColRef(toks[k..]) == Success((ref, toks[k + 3..]))
      && (match slot.other
          case None => toks[k + 3] == Symbol('=')
          case Some(first) => k > 3 && Sides(toks[k - 4..]) == Success((first, ref, toks[k + 3..])))
    case RefColumn(ref) => k > 1 && ColRef(toks[k - 2..]) == Success((ref, toks[k + 1..]))
    case _ => true
  }

  lemma StandsIsRead(toks: seq<Grammar.Token>, k: nat, slot: Slot)
    requires k + 3 < |toks| || !slot.role.RefStart?
    requires k < |toks| && Stands(toks, k, slot)
    ensures ReadAt(toks, k, slot)
  {
    assert toks[k..][0] == toks[k] && toks[k..][1..] == toks[k + 1..];
    match slot.role
    case RefStart(ref) =>
      RefIsRead(toks, k, ref);
      if slot.other.Some? {
        SidesAreRead(toks, k - 4, slot.other.value, ref);
      }
    case RefColumn(ref) => RefIsRead(toks, k - 2, ref);
    case _ =>
  }

  /** At its place the grammar reads a table name, or the side of a pair, as the place says. */
  lemma PlaceIsRead(def: JoinDef, ch: Choices, k: nat)
    requires WellFormed(def) && Fits(def, ch) && k < |Spelled(def, ch)|
    ensures |Slots(def, ch)| == |Spelled(def, ch)| && ReadAt(Spelled(def, ch), k, Slots(def, ch)[k])
  {
    var toks, slots := Spelled(def, ch), Slots(def, ch);
    var _ := SlotsPlaced(def, ch, START);
    CoreIs(def, ch);
    assert Stands(toks, k, slots[k]);
    if slots[k].role.RefStart? {
      assert toks[k + 2] != End;
    }
    StandsIsRead(toks, k, slots[k]);
  }

  // ---- Cutting an accepted text ----

  /** The gap before the token at `k`, or the end of the text. */
  function GapAt(toks: seq<Grammar.Token>, sp: Spacing, k: nat): string
    requires |sp.gaps| == |toks| && k <= |toks|
  {
    if k < |toks| then sp.gaps[k] else sp.end
  }

  lemma {:induction false} WrittenTake(toks: seq<Grammar.Token>, gaps: seq<string>, k: nat)
    requires |gaps| == |toks| && k <= |toks|
    ensures Written(toks, gaps) == Written(toks[..k], gaps[..k]) + Written(toks[k..], gaps[k..])
  {
    if k == 0 {
      assert toks[0..] == toks && gaps[0..] == gaps;
      assert "" + Written(toks, gaps) == Written(toks, gaps);
    } else {
      WrittenTake(toks[1..], gaps[1..], k - 1);
      assert toks[..k][1..] == toks[1..][..k - 1] && gaps[..k][1..] == gaps[1..][..k - 1];
      assert toks[1..][k - 1..] == toks[k..] && gaps[1..][k - 1..] == gaps[k..];
      WrittenFirst(
        gaps[0], TokenText(toks[0]), Written(toks[1..][..k - 1], gaps[1..][..k - 1]), Written(toks[k..], gaps[k..]));
    }
  }

  lemma WrittenNotEmpty(toks: seq<Grammar.Token>, gaps: seq<string>)
    requires toks != [] && |gaps| == |toks| && JoinSpellingText.Plain(toks[0])
    ensures Written(toks, gaps) != ""
  {
    PlainIsSolid(toks[0]);
  }

  /** Only what follows the last token directly matters to it. */
  lemma {:induction false} ApartTake(
    toks: seq<Grammar.Token>, gaps: seq<string>, rest: string, k: nat, rest': string)
    requires AllPlain(toks) && |gaps| == |toks| && Apart(toks, gaps, rest) && k <= |toks|
    requires k > 0 ==> Follows(toks[k - 1], rest')
    ensures Apart(toks[..k], gaps[..k], rest')
  {
    if k > 0 {
      var more, gaps' := toks[1..], gaps[1..];
      ApartTake(more, gaps', rest, k - 1, rest');
      assert toks[..k][1..] == more[..k - 1] && gaps[..k][1..] == gaps'[..k - 1];
      if k > 1 {
        WrittenTake(more, gaps', k - 1);
        WrittenNotEmpty(more[..k - 1], gaps'[..k - 1]);
        SameStart(Written(more[..k - 1], gaps'[..k - 1]), Written(more[k - 1..], gaps'[k - 1..]) + rest, rest');
      }
    }
  }

  lemma SameStart(a: string, b: string, c: string)
    requires a != ""
    ensures (a + b)[0] == (a + c)[0]
  {
  }

  lemma PrefixInGap(a: string, gap: string, more: string, blank: string)
    requires blank <= gap
    ensures a + (blank + "") <= a + (gap + more)
  {
    assert blank + "" == blank;
    assert gap == blank + gap[|blank|..];
    assert a + (gap + more) == a + blank + (gap[|blank|..] + more);
  }

  /** What comes before a place in its gap is where the text starts. */
  lemma CutIsPrefix(text: string, toks: seq<Grammar.Token>, sp: Spacing, k: nat, blank: string)
    requires Lays(text, toks, sp) && k <= |toks| && blank <= GapAt(toks, sp, k)
    ensures Written(toks[..k], sp.gaps[..k]) + (blank + "") <= text
  {
    var a, b := Written(toks[..k], sp.gaps[..k]), Written(toks[k..], sp.gaps[k..]);
    WrittenTake(toks, sp.gaps, k);
    ConcatAssoc(a, b, sp.end);
    if k == |toks| {
      assert b + sp.end == sp.end + "";
      PrefixInGap(a, sp.end, "", blank);
    } else {
      var first, later := TokenText(toks[k]), Written(toks[k..][1..], sp.gaps[k..][1..]);
      assert b == sp.gaps[k] + (first + later);
      ConcatAssoc(sp.gaps[k], first + later, sp.end);
      PrefixInGap(a, sp.gaps[k], first + later + sp.end, blank);
    }
  }

  /** A text can be cut in any gap, and directly after a symbol. */
  lemma CutIsValid(text: string, toks: seq<Grammar.Token>, sp: Spacing, k: nat, blank: string, typed: string)
    returns (cut: Cut)
    requires AllPlain(toks) && Lays(text, toks, sp) && k <= |toks| && Blank(blank)
    requires Typable(typed, AfterDot(toks, k)) && (k > 0 && blank == "" ==> toks[k - 1].Symbol?)
    ensures cut == Cut(toks[..k], sp.gaps[..k], blank, typed) && cut.Valid()
  {
    cut := Cut(toks[..k], sp.gaps[..k], blank, typed);
    if k > 0 {
      FollowsCut(toks[k - 1], blank, typed);
    }
    ApartTake(toks, sp.gaps, sp.end, k, blank + typed);
    PlainTake(toks, k);
  }

  lemma PlainTake(toks: seq<Grammar.Token>, k: nat)
    requires AllPlain(toks) && k <= |toks|
    ensures AllPlain(toks[..k]) && (k > 0 ==> toks[..k][k - 1] == toks[k - 1])
  {
  }

  lemma FollowsCut(t: Grammar.Token, blank: string, typed: string)
    requires Blank(blank) && (typed == "" || IsBareName(typed)) && (blank == "" ==> t.Symbol?)
    ensures Follows(t, blank + typed)
  {
  }

  lemma BlankTake(gap: string, blank: string)
    requires Blank(gap) && blank <= gap
    ensures Blank(blank)
  {
  }

  lemma {:induction false} GapsAreBlank(toks: seq<Grammar.Token>, gaps: seq<string>, rest: string, k: nat)
    requires |gaps| == |toks| && Apart(toks, gaps, rest) && k < |toks|
    ensures Blank(gaps[k])
  {
    if k > 0 {
      GapsAreBlank(toks[1..], gaps[1..], rest, k - 1);
    }
  }

  /** A spelled text up to the place `k`, with `blank` of the space that stands there. */
  function CutOf(def: JoinDef, ch: Choices, sp: Spacing, k: nat, blank: string): Cut
    requires WellFormed(def) && Fits(def, ch) && k <= |Core(def, ch)| == |sp.gaps|
  {
    Cut(Core(def, ch)[..k], sp.gaps[..k], blank, "")
  }

  /** Where a spelled text is cut, it is a cut of its spelling. */
  lemma CutOfIs(text: string, def: JoinDef, ch: Choices, sp: Spacing, k: nat, blank: string)
    requires Spells(text, def, ch, sp) && k <= |Core(def, ch)| && blank <= GapAt(Core(def, ch), sp, k)
    requires k > 0 && blank == "" ==> Core(def, ch)[k - 1].Symbol?
    ensures var cut := CutOf(def, ch, sp, k, blank);
            && cut.Valid() && cut.Text() <= text && |cut.toks| == k && Blank(blank)
            && k < |Spelled(def, ch)| && cut.toks == Spelled(def, ch)[..k]
  {
    CoreIs(def, ch);
    var toks := Core(def, ch);
    if k < |toks| {
      GapsAreBlank(toks, sp.gaps, sp.end, k);
    }
    BlankTake(GapAt(toks, sp, k), blank);
    var _ := CutIsValid(text, toks, sp, k, blank, "");
    CutIsPrefix(text, toks, sp, k, blank);
    TakeFirst(toks, [End], k);
  }

  lemma SpaceAnswers(all: seq<Grammar.Token>, slot: Slot, st: State, cut: Cut, head: string)
    requires cut.Valid() && |cut.toks| < |all| && cut.toks == all[..|cut.toks|] && st == START
    requires Holds(all, |cut.toks|, slot, st) && Stands(all, |cut.toks|, slot)
    requires cut.Spaced() && head == cut.Text()
    ensures var context := Context(NextToken, head);
            var wanted := WantedIn(context, TypingIn(NextToken, head));
            && (wanted == Table <==> slot.role.TableName?)
            && (wanted == Qualifier <==> slot.role.RefStart? || slot.role.RefDot? || slot.role.RefColumn?)
            && wanted != Column && !wanted.Keywords? && OtherSide(context) == AsRef(slot.other)
  {
    CutAnswers(all, slot, st, cut);
  }

  lemma DotAnswers(all: seq<Grammar.Token>, slot: Slot, st: State, cut: Cut, head: string)
    requires cut.Valid() && |cut.toks| < |all| && cut.toks == all[..|cut.toks|] && st == START
    requires Holds(all, |cut.toks|, slot, st) && Stands(all, |cut.toks|, slot)
    requires AfterDot(all, |cut.toks|) && cut.blank == "" && cut.typed == "" && head == cut.Text()
    ensures var context, typing := Context(NextToken, head), TypingIn(NextToken, head);
            && WantedIn(context, typing) == (if slot.role.RefColumn? then Column else Nothing)
            && (slot.role.RefColumn? ==> typing.qualifier == Some(slot.role.ref.qualifier))
            && OtherSide(context) == AsRef(slot.other)
  {
    CutAnswers(all, slot, st, cut);
  }

  /**
   * An accepted text cut in the space before a token: a table is asked for exactly
   * before a table name, and a qualifier exactly before the first name of a pair's
   * side, before its dot, or before its column.
   */
  lemma AskedInSpace(text: string, def: JoinDef, ch: Choices, sp: Spacing, k: nat, blank: string)
    returns (head: string, slot: Slot)
    requires Spells(text, def, ch, sp) && k <= |Core(def, ch)| && blank <= GapAt(Core(def, ch), sp, k) && blank != ""
    ensures head == CutOf(def, ch, sp, k, blank).Text() && head <= text
    ensures |Slots(def, ch)| == |Spelled(def, ch)| && k < |Slots(def, ch)| && slot == Slots(def, ch)[k]
    ensures var context := Context(NextToken, head);
            var wanted := WantedIn(context, TypingIn(NextToken, head));
            && (wanted == Table <==> slot.role.TableName?)
            && (wanted == Qualifier <==> slot.role.RefStart? || slot.role.RefDot? || slot.role.RefColumn?)
            && wanted != Column && !wanted.Keywords? && OtherSide(context) == AsRef(slot.other)
  {
    var st := START;
    slot := SlotHolds(def, ch, k, st);
    CutOfIs(text, def, ch, sp, k, blank);
    var cut := CutOf(def, ch, sp, k, blank);
    head := cut.Text();
    SpaceAnswers(Spelled(def, ch), slot, st, cut, head);
  }

  /** Cut directly after a dot: a column is asked for, of the qualifier before the dot, exactly in a pair's side. */
  lemma AskedAfterDot(text: string, def: JoinDef, ch: Choices, sp: Spacing, k: nat)
    returns (head: string, slot: Slot)
    requires Spells(text, def, ch, sp) && k <= |Core(def, ch)| && AfterDot(Core(def, ch), k)
    ensures head == CutOf(def, ch, sp, k, "").Text() && head <= text
    ensures |Slots(def, ch)| == |Spelled(def, ch)| && k < |Slots(def, ch)| && slot == Slots(def, ch)[k]
    ensures var context, typing := Context(NextToken, head), TypingIn(NextToken, head);
            && WantedIn(context, typing) == (if slot.role.RefColumn? then Column else Nothing)
            && (slot.role.RefColumn? ==> typing.qualifier == Some(slot.role.ref.qualifier))
            && OtherSide(context) == AsRef(slot.other)
  {
    var st := START;
    CoreIs(def, ch);
    slot := SlotHolds(def, ch, k, st);
    CutOfIs(text, def, ch, sp, k, "");
    var cut := CutOf(def, ch, sp, k, "");
    head := cut.Text();
    DotAnswers(Spelled(def, ch), slot, st, cut, head);
  }

  lemma SlotHolds(def: JoinDef, ch: Choices, k: nat, st: State) returns (slot: Slot)
    requires WellFormed(def) && Fits(def, ch) && k < |Spelled(def, ch)| && st == START
    ensures |Slots(def, ch)| == |Spelled(def, ch)| && slot == Slots(def, ch)[k]
    ensures Holds(Spelled(def, ch), k, slot, st) && Stands(Spelled(def, ch), k, slot)
  {
    var _ := SlotsPlaced(def, ch, st);
    slot := Slots(def, ch)[k];
  }

  /** After the last pair, its second side is still held as the other side. */
  lemma OtherStays(def: JoinDef, ch: Choices)
    requires WellFormed(def) && Fits(def, ch)
    ensures |def.joins| > 0 && |def.joins| < |def.tables|
    ensures var last := |def.joins| - 1;
            && PairsWF(def.joins[last].on, last + 1) && 0 < |def.joins[last].on| == |ch.clauses[last].pairs|
            && |Slots(def, ch)| > 0
            && Slots(def, ch)[|Slots(def, ch)| - 1]
               == Slot(PastRef, Some(LastSide(def.joins[last], last + 1, def.tables, ch.clauses[last])))
  {
    ClauseOf(def, |def.joins| - 1, ch);
    ClausesKeepOther(def, 0, ch, None);
  }

  /** The last place of the clauses from `i` on. */
  lemma {:induction false} ClausesKeepOther(def: JoinDef, i: nat, ch: Choices, other: Option<Reference>)
    requires WellFormed(def) && Fits(def, ch) && i < |def.joins| < |def.tables|
    requires var last := |def.joins| - 1;
             PairsWF(def.joins[last].on, last + 1) && 0 < |def.joins[last].on| == |ch.clauses[last].pairs|
    ensures var last, slots := |def.joins| - 1, ClausesSlots(def, i, ch, other);
            && slots != []
            && slots[|slots| - 1]
               == Slot(PastRef, Some(LastSide(def.joins[last], last + 1, def.tables, ch.clauses[last])))
    decreases |def.joins| - i
  {
    ClauseOf(def, i, ch);
    var side := LastSide(def.joins[i], i + 1, def.tables, ch.clauses[i]);
    ClausesNext(def, i, ch, other, side);
    if i + 1 == |def.joins| {
      NothingMore(def, ch, Some(side));
    } else {
      ClausesKeepOther(def, i + 1, ch, Some(side));
    }
    EndOf(
      ClauseSlots(def.joins[i], i + 1, def.tables, ch.clauses[i], other), ClausesSlots(def, i + 1, ch, Some(side)));
  }

  lemma EndOf<T>(a: seq<T>, b: seq<T>)
    requires b != []
    ensures (a + b)[|a + b| - 1] == b[|b| - 1]
  {
  }

  lemma NothingMore(def: JoinDef, ch: Choices, other: Option<Reference>)
    requires WellFormed(def) && Fits(def, ch)
    ensures var slots := ClausesSlots(def, |def.joins|, ch, other);
            slots != [] && slots[|slots| - 1] == Slot(PastRef, other)
  {
  }
}

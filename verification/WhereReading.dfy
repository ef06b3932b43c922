/** The tokens of a rendered WHERE clause. */
module WhereReading {
  import opened Outcomes
  import opened Text
  import opened Numbers
  import opened FilterTypes
  import opened Reading
  import opened WhereClause
  import Sql

  type Token = Sql.Token

  // ---- What the text is made of ----

  function AliasToks(table: Option<nat>): seq<Token> {
    if table.None? then [] else [Sql.Word("t" + Decimal(table.value))] + [Sql.Sym(".")]
  }

  function ColumnToks(table: Option<nat>, column: string): seq<Token> {
    AliasToks(table) + [Sql.Name(column)]
  }

  function CastToks(d: Dialect, column: seq<Token>): seq<Token> {
    match d.cast
    case TextSuffix => column + [Sql.Sym("::")] + [Sql.Word("text")]
    case CastAsChar => [Sql.Word("CAST")] + [Sql.Sym("(")] + column + [Sql.Word("AS")] + [Sql.Word("CHAR")] + [Sql.Sym(")")]
    case CastAsText => [Sql.Word("CAST")] + [Sql.Sym("(")] + column + [Sql.Word("AS")] + [Sql.Word("TEXT")] + [Sql.Sym(")")]
  }

  function LowerToks(toks: seq<Token>): seq<Token> {
    [Sql.Word("LOWER")] + [Sql.Sym("(")] + toks + [Sql.Sym(")")]
  }

  function OpToks(op: Op): seq<Token> {
    if op.IsNull? then [Sql.Word("IS"), Sql.Word("NULL")]
    else if op.IsNotNull? then [Sql.Word("IS"), Sql.Word("NOT"), Sql.Word("NULL")]
    else if op.IsSymbol() then [Sql.Sym(op.Text())]
    else [Sql.Word(op.Text())]
  }

  /** A test whose placeholder, if it has one, is the token `ph`. */
  function InnerToks(d: Dialect, c: Checked, ph: Token): seq<Token> {
    var cast := CastToks(d, ColumnToks(c.table, c.column));
    if !c.op.TakesValue() then cast + OpToks(c.op)
    else if !c.op.ILike? then cast + OpToks(c.op) + [ph]
    else
      match d.ilike
      case Native => cast + [Sql.Word("ILIKE")] + [ph]
      case AsLike => cast + [Sql.Word("LIKE")] + [ph]
      case AsLoweredLike => LowerToks(cast) + [Sql.Word("LIKE")] + LowerToks([ph])
  }

  function WrappedToks(d: Dialect, c: Checked, ph: Token): seq<Token> {
    if c.not then [Sql.Sym("(")] + ([Sql.Word("NOT")] + ([Sql.Sym("(")] + (InnerToks(d, c, ph) + [Sql.Sym(")")]))) + [Sql.Sym(")")]
    else [Sql.Sym("(")] + InnerToks(d, c, ph) + [Sql.Sym(")")]
  }

  function PlaceholderTok(d: Dialect, n: nat): Token {
    if d.numbered then Sql.Dollar(n) else Sql.Mark
  }

  // ---- Reading the pieces ----

  lemma TokensStep(s: string)
    requires s != "" && !IsSpace(s[0])
    ensures var (tok, n) := Sql.LexToken(s);
            Sql.Tokens(s) == if tok == Sql.Bad then [tok] else [tok] + Sql.Tokens(s[n..])
  {
    assert Span(Space, s) == 0;
    assert s[0..] == s;
  }

  lemma SpaceReads()
    ensures Separates(Sql.Tokens, " ", [])
  {
    forall s: string
      ensures Sql.Tokens(" " + s) == [] + Sql.Tokens(s)
    {
      assert (" " + s)[1..] == s;
      assert Span(Space, " " + s) == 1 + Span(Space, s);
      assert (" " + s)[Span(Space, " " + s)..] == s[Span(Space, s)..];
    }
  }

  lemma CharReads(c: char)
    requires c == '(' || c == ')' || c == '.'
    ensures Separates(Sql.Tokens, [c], [Sql.Sym([c])])
  {
    forall s: string
      ensures Sql.Tokens([c] + s) == [Sql.Sym([c])] + Sql.Tokens(s)
    {
      TokensStep([c] + s);
      assert ([c] + s)[1..] == s;
    }
  }

  lemma ColonsRead()
    ensures Separates(Sql.Tokens, "::", [Sql.Sym("::")])
  {
    forall s: string
      ensures Sql.Tokens("::" + s) == [Sql.Sym("::")] + Sql.Tokens(s)
    {
      TokensStep("::" + s);
      assert ("::" + s)[2..] == s;
    }
  }

  lemma MarkReads()
    ensures Reads(Sql.Tokens, "?", [Sql.Mark])
  {
    forall s: string | Breaks(s)
      ensures Sql.Tokens("?" + s) == [Sql.Mark] + Sql.Tokens(s)
    {
      TokensStep("?" + s);
      assert ("?" + s)[1..] == s;
    }
  }

  lemma WordReads(word: string)
    requires IsBareName(word)
    ensures Reads(Sql.Tokens, word, [Sql.Word(word)])
  {
    forall rest: string | Breaks(rest)
      ensures Sql.Tokens(word + rest) == [Sql.Word(word)] + Sql.Tokens(rest)
    {
      var s := word + rest;
      assert s[0] == word[0];
      assert s[1..] == word[1..] + rest;
      SpanIs(NameChar, s[1..], |word| - 1);
      assert s[..|word|] == word;
      assert s[|word|..] == rest;
      TokensStep(s);
    }
  }

  lemma QuotedReads(name: string, q: char)
    requires q == '"' || q == '`'
    ensures Reads(Sql.Tokens, Enclosed(name, q), [Sql.Name(name)])
  {
    forall rest: string | Breaks(rest)
      ensures Sql.Tokens(Enclosed(name, q) + rest) == [Sql.Name(name)] + Sql.Tokens(rest)
    {
      var doubled := Doubled(name, q);
      var s := Enclosed(name, q) + rest;
      assert s[1..] == doubled + [q] + rest;
      ScanDoubled(name, q, rest);
      assert s[|doubled| + 2..] == rest;
      TokensStep(s);
    }
  }

  lemma DigitsSpan(digits: string, rest: string)
    requires AllDigits(digits) && Breaks(rest)
    ensures Span(DigitChar, digits + rest) == |digits| && (digits + rest)[..|digits|] == digits
  {
    SpanIs(DigitChar, digits + rest, |digits|);
  }

  lemma ParamLexes(digits: string, rest: string)
    requires digits != "" && AllDigits(digits) && Breaks(rest)
    ensures Sql.LexToken("$" + digits + rest) == (Sql.Dollar(Value(digits)), |digits| + 1)
  {
    var s := "$" + digits + rest;
    assert s[1..] == digits + rest;
    DigitsSpan(digits, rest);
  }

  lemma ParamReads(n: nat)
    ensures Reads(Sql.Tokens, "$" + Decimal(n), [Sql.Dollar(n)])
  {
    ValueOfDecimal(n);
    forall rest: string | Breaks(rest)
      ensures Sql.Tokens("$" + Decimal(n) + rest) == [Sql.Dollar(n)] + Sql.Tokens(rest)
    {
      var s := "$" + Decimal(n) + rest;
      ParamLexes(Decimal(n), rest);
      assert s[|Decimal(n)| + 1..] == rest;
      TokensStep(s);
    }
  }

  lemma RunLexes(text: string, rest: string)
    requires text != "" && forall i :: 0 <= i < |text| ==> OperatorChar.Has(text[i])
    requires rest != "" && rest[0] == ' '
    ensures Sql.LexToken(text + rest) == (Sql.Sym(text), |text|)
  {
    var s := text + rest;
    assert s[0] == text[0];
    assert s[1..] == text[1..] + rest;
    SpanIs(OperatorChar, s[1..], |text| - 1);
    assert s[..|text|] == text;
  }

  lemma RunReads(text: string)
    requires text != "" && forall i :: 0 <= i < |text| ==> OperatorChar.Has(text[i])
    ensures ReadsAlways(Sql.Tokens, text + " ", [Sql.Sym(text)])
  {
    forall rest: string
      ensures Sql.Tokens(text + " " + rest) == [Sql.Sym(text)] + Sql.Tokens(rest)
    {
      RunStep(text, rest);
    }
  }

  lemma RunStep(text: string, rest: string)
    requires text != "" && forall i :: 0 <= i < |text| ==> OperatorChar.Has(text[i])
    ensures Sql.Tokens(text + " " + rest) == [Sql.Sym(text)] + Sql.Tokens(rest)
  {
    var s := text + (" " + rest);
    assert text + " " + rest == s;
    assert s[0] == text[0];
    RunLexes(text, " " + rest);
    assert s[|text|..] == " " + rest;
    TokensStep(s);
    SpaceStep(rest);
  }

  lemma SpaceStep(rest: string)
    ensures Sql.Tokens(" " + rest) == Sql.Tokens(rest)
  {
    SpaceReads();
    assert [] + Sql.Tokens(rest) == Sql.Tokens(rest);
  }

  lemma SymbolReads(op: Op)
    requires op.IsSymbol()
    ensures ReadsAlways(Sql.Tokens, op.Text() + " ", [Sql.Sym(op.Text())])
  {
    RunReads(op.Text());
  }

  /** A lexer that reads the pieces of a rendered clause; `Sql.Tokens` is one. */
  ghost predicate ReadsPieces(read: string -> seq<Token>) {
    && (forall name: string :: Reads(read, Enclosed(name, '"'), [Sql.Name(name)]))
    && (forall name: string :: Reads(read, Enclosed(name, '`'), [Sql.Name(name)]))
    && (forall word :: IsBareName(word) ==> Reads(read, word, [Sql.Word(word)]))
    && (forall n :: Reads(read, "$" + Decimal(n), [Sql.Dollar(n)])) && Reads(read, "?", [Sql.Mark])
    && (forall op: Op :: op.IsSymbol() ==> ReadsAlways(read, op.Text() + " ", [Sql.Sym(op.Text())]))
    && Separates(read, " ", []) && Separates(read, ".", [Sql.Sym(".")]) && Separates(read, "::", [Sql.Sym("::")])
    && Separates(read, "(", [Sql.Sym("(")]) && Separates(read, ")", [Sql.Sym(")")])
  }

  lemma TokensReadsPieces()
    ensures ReadsPieces(Sql.Tokens)
  {
    forall name: string
      ensures Reads(Sql.Tokens, Enclosed(name, '"'), [Sql.Name(name)])
    {
      QuotedReads(name, '"');
    }
    forall name: string
      ensures Reads(Sql.Tokens, Enclosed(name, '`'), [Sql.Name(name)])
    {
      QuotedReads(name, '`');
    }
    forall word: string | IsBareName(word)
      ensures Reads(Sql.Tokens, word, [Sql.Word(word)])
    {
      WordReads(word);
    }
    forall n: nat
      ensures Reads(Sql.Tokens, "$" + Decimal(n), [Sql.Dollar(n)])
    {
      ParamReads(n);
    }
    forall op: Op | op.IsSymbol()
      ensures ReadsAlways(Sql.Tokens, op.Text() + " ", [Sql.Sym(op.Text())])
    {
      SymbolReads(op);
    }
    MarkReads();
    SpaceReads();
    CharReads('.');
    CharReads('(');
    CharReads(')');
    ColonsRead();
  }

  // ---- Reading whole conditions ----

  lemma ParenReads(read: string -> seq<Token>, s: string, toks: seq<Token>)
    requires Separates(read, "(", [Sql.Sym("(")]) && Separates(read, ")", [Sql.Sym(")")]) && Reads(read, s, toks)
    ensures Reads(read, "(" + s + ")", [Sql.Sym("(")] + toks + [Sql.Sym(")")])
    ensures Reads(read, "(" + (s + ")"), [Sql.Sym("(")] + (toks + [Sql.Sym(")")]))
  {
    CloseReads(read);
    ReadsAfter(read, "(", [Sql.Sym("(")], s, toks);
    ReadsThen(read, "(" + s, [Sql.Sym("(")] + toks, ")", [Sql.Sym(")")]);
    assert "(" + s + ")" == "(" + (s + ")");
    assert [Sql.Sym("(")] + toks + [Sql.Sym(")")] == [Sql.Sym("(")] + (toks + [Sql.Sym(")")]);
  }

  lemma CloseReads(read: string -> seq<Token>)
    requires Separates(read, ")", [Sql.Sym(")")])
    ensures Reads(read, ")", [Sql.Sym(")")])
  {
  }

  /** `WORD(…)`. */
  lemma CallReads(read: string -> seq<Token>, word: string, s: string, toks: seq<Token>)
    requires Separates(read, "(", [Sql.Sym("(")]) && Separates(read, ")", [Sql.Sym(")")])
    requires Reads(read, word, [Sql.Word(word)]) && Reads(read, s, toks)
    ensures Reads(read, word + "(" + s + ")", [Sql.Word(word)] + [Sql.Sym("(")] + toks + [Sql.Sym(")")])
  {
    CloseReads(read);
    ReadsInfix(read, word, [Sql.Word(word)], "(", [Sql.Sym("(")], s, toks);
    ReadsThen(read, word + "(" + s, [Sql.Word(word)] + [Sql.Sym("(")] + toks, ")", [Sql.Sym(")")]);
  }

  lemma IdentReads(read: string -> seq<Token>, d: Dialect, column: string)
    requires ReadsPieces(read)
    ensures Reads(read, QuoteIdent(d, column), [Sql.Name(column)])
  {
  }

  lemma AliasReads(read: string -> seq<Token>, n: nat)
    requires ReadsPieces(read)
    ensures Reads(read, "t" + Decimal(n), [Sql.Word("t" + Decimal(n))])
  {
    assert IsBareName("t" + Decimal(n));
  }

  lemma ColumnReads(read: string -> seq<Token>, d: Dialect, table: Option<nat>, column: string)
    requires ReadsPieces(read)
    ensures Reads(read, ColumnText(d, table, column), ColumnToks(table, column))
  {
    IdentReads(read, d, column);
    if table.None? {
      assert ColumnToks(table, column) == [Sql.Name(column)];
    } else {
      AliasReads(read, table.value);
      var alias := "t" + Decimal(table.value);
      ReadsInfix(read, alias, [Sql.Word(alias)], ".", [Sql.Sym(".")], QuoteIdent(d, column), [Sql.Name(column)]);
    }
  }

  /** The words a clause is written with. */
  lemma WordsRead(read: string -> seq<Token>)
    requires ReadsPieces(read)
    ensures Reads(read, "text", [Sql.Word("text")]) && Reads(read, "CAST", [Sql.Word("CAST")])
    ensures Reads(read, "CHAR", [Sql.Word("CHAR")]) && Reads(read, "TEXT", [Sql.Word("TEXT")])
  {
    assert IsBareName("text") && IsBareName("CAST") && IsBareName("CHAR") && IsBareName("TEXT");
  }

  lemma AsSeparates(read: string -> seq<Token>)
    requires ReadsPieces(read)
    ensures Separates(read, " AS ", [Sql.Word("AS")])
  {
    assert IsBareName("AS");
    WordSeparates(read, " ", "AS", [Sql.Word("AS")]);
    assert " " + "AS" + " " == " AS ";
  }

  lemma CastCallReads(read: string -> seq<Token>, column: string, ctoks: seq<Token>, kind: string)
    requires Separates(read, "(", [Sql.Sym("(")]) && Separates(read, ")", [Sql.Sym(")")])
    requires Separates(read, " AS ", [Sql.Word("AS")]) && Reads(read, "CAST", [Sql.Word("CAST")])
    requires Reads(read, kind, [Sql.Word(kind)]) && Reads(read, column, ctoks)
    ensures Reads(
              read, "CAST" + "(" + column + " AS " + kind + ")",
              [Sql.Word("CAST")] + [Sql.Sym("(")] + ctoks + [Sql.Word("AS")] + [Sql.Word(kind)] + [Sql.Sym(")")])
  {
    CloseReads(read);
    ReadsInfix(read, "CAST", [Sql.Word("CAST")], "(", [Sql.Sym("(")], column, ctoks);
    var head, htoks := "CAST" + "(" + column, [Sql.Word("CAST")] + [Sql.Sym("(")] + ctoks;
    ReadsInfix(read, head, htoks, " AS ", [Sql.Word("AS")], kind, [Sql.Word(kind)]);
    ReadsThen(read, head + " AS " + kind, htoks + [Sql.Word("AS")] + [Sql.Word(kind)], ")", [Sql.Sym(")")]);
  }

  lemma CastReads(read: string -> seq<Token>, d: Dialect, column: string, ctoks: seq<Token>)
    requires ReadsPieces(read) && Reads(read, column, ctoks)
    ensures Reads(read, CastText(d, column), CastToks(d, ctoks))
  {
    WordsRead(read);
    match d.cast
    case TextSuffix => ReadsInfix(read, column, ctoks, "::", [Sql.Sym("::")], "text", [Sql.Word("text")]);
    case CastAsChar =>
      AsSeparates(read);
      CastCallReads(read, column, ctoks, "CHAR");
    case CastAsText =>
      AsSeparates(read);
      CastCallReads(read, column, ctoks, "TEXT");
  }

  lemma PlaceholderReads(read: string -> seq<Token>, d: Dialect, n: nat)
    requires ReadsPieces(read)
    ensures Reads(read, Placeholder(d, n), [PlaceholderTok(d, n)])
  {
  }

  lemma OpSeparates(read: string -> seq<Token>, op: Op)
    requires ReadsPieces(read) && op.TakesValue()
    ensures Separates(read, " " + op.Text() + " ", OpToks(op))
  {
    if op.IsSymbol() {
      SymbolSeparates(read, op.Text());
    } else {
      assert IsBareName(op.Text());
      WordSeparates(read, " ", op.Text(), [Sql.Word(op.Text())]);
    }
  }

  lemma SymbolSeparates(read: string -> seq<Token>, text: string)
    requires Separates(read, " ", []) && ReadsAlways(read, text + " ", [Sql.Sym(text)])
    ensures Separates(read, " " + text + " ", [Sql.Sym(text)])
  {
    forall rest: string
      ensures read(" " + text + " " + rest) == [Sql.Sym(text)] + read(rest)
    {
      assert " " + text + " " + rest == " " + (text + " " + rest);
      assert [] + read(text + " " + rest) == read(text + " " + rest);
    }
  }

  lemma IsNullReads(read: string -> seq<Token>)
    requires ReadsPieces(read)
    ensures Reads(read, "IS NULL", OpToks(IsNull))
  {
    assert IsBareName("IS") && IsBareName("NULL");
    ReadsInfix(read, "IS", [Sql.Word("IS")], " ", [], "NULL", [Sql.Word("NULL")]);
    assert "IS" + " " + "NULL" == "IS NULL";
    assert [Sql.Word("IS")] + [] + [Sql.Word("NULL")] == OpToks(IsNull);
  }

  lemma IsNotNullReads(read: string -> seq<Token>)
    requires ReadsPieces(read)
    ensures Reads(read, "IS NOT NULL", OpToks(IsNotNull))
  {
    IsNotReads(read);
    var head, toks := "IS" + " " + "NOT", [Sql.Word("IS")] + [] + [Sql.Word("NOT")];
    assert IsBareName("NULL");
    ReadsInfix(read, head, toks, " ", [], "NULL", [Sql.Word("NULL")]);
    assert head + " " + "NULL" == "IS NOT NULL";
    assert toks + [] + [Sql.Word("NULL")] == OpToks(IsNotNull);
  }

  lemma IsNotReads(read: string -> seq<Token>)
    requires ReadsPieces(read)
    ensures Reads(read, "IS" + " " + "NOT", [Sql.Word("IS")] + [] + [Sql.Word("NOT")])
  {
    assert IsBareName("IS") && IsBareName("NOT");
    ReadsInfix(read, "IS", [Sql.Word("IS")], " ", [], "NOT", [Sql.Word("NOT")]);
  }

  lemma NullTestReads(read: string -> seq<Token>, cast: string, ctoks: seq<Token>, text: string, toks: seq<Token>)
    requires Separates(read, " ", []) && Reads(read, cast, ctoks) && Reads(read, text, toks)
    ensures Reads(read, cast + " " + text, ctoks + toks)
  {
    ReadsInfix(read, cast, ctoks, " ", [], text, toks);
    assert ctoks + [] + toks == ctoks + toks;
  }

  lemma LoweredReads(
    read: string -> seq<Token>, cast: string, ctoks: seq<Token>, ph: string, ptok: Token)
    requires Separates(read, "(", [Sql.Sym("(")]) && Separates(read, ")", [Sql.Sym(")")])
    requires Reads(read, "LOWER", [Sql.Word("LOWER")]) && Separates(read, " LIKE ", [Sql.Word("LIKE")])
    requires Reads(read, cast, ctoks) && Reads(read, ph, [ptok])
    ensures Reads(
              read, "LOWER" + "(" + cast + ")" + " LIKE " + ("LOWER" + "(" + ph + ")"),
              LowerToks(ctoks) + [Sql.Word("LIKE")] + LowerToks([ptok]))
  {
    CallReads(read, "LOWER", cast, ctoks);
    CallReads(read, "LOWER", ph, [ptok]);
    ReadsInfix(
      read, "LOWER" + "(" + cast + ")", LowerToks(ctoks), " LIKE ", [Sql.Word("LIKE")],
      "LOWER" + "(" + ph + ")", LowerToks([ptok]));
  }

  lemma LikeSeparates(read: string -> seq<Token>)
    requires ReadsPieces(read)
    ensures Separates(read, " LIKE ", [Sql.Word("LIKE")]) && Separates(read, " ILIKE ", [Sql.Word("ILIKE")])
  {
    OpSeparates(read, Like);
    OpSeparates(read, ILike);
    assert " " + "LIKE" + " " == " LIKE " && " " + "ILIKE" + " " == " ILIKE ";
  }

  lemma LowerReads(read: string -> seq<Token>)
    requires ReadsPieces(read)
    ensures Reads(read, "LOWER", [Sql.Word("LOWER")])
  {
    assert IsBareName("LOWER");
  }

  lemma IlikeReads(read: string -> seq<Token>, d: Dialect, cast: string, ctoks: seq<Token>, ph: string, ptok: Token)
    requires ReadsPieces(read) && Reads(read, cast, ctoks) && Reads(read, ph, [ptok])
    ensures match d.ilike
            case Native => Reads(read, cast + " ILIKE " + ph, ctoks + [Sql.Word("ILIKE")] + [ptok])
            case AsLike => Reads(read, cast + " LIKE " + ph, ctoks + [Sql.Word("LIKE")] + [ptok])
            case AsLoweredLike =>
              Reads(
                read, "LOWER" + "(" + cast + ")" + " LIKE " + ("LOWER" + "(" + ph + ")"),
                LowerToks(ctoks) + [Sql.Word("LIKE")] + LowerToks([ptok]))
  {
    LikeSeparates(read);
    match d.ilike
    case Native => ReadsInfix(read, cast, ctoks, " ILIKE ", [Sql.Word("ILIKE")], ph, [ptok]);
    case AsLike => ReadsInfix(read, cast, ctoks, " LIKE ", [Sql.Word("LIKE")], ph, [ptok]);
    case AsLoweredLike =>
      LowerReads(read);
      LoweredReads(read, cast, ctoks, ph, ptok);
  }

  lemma InnerReads(read: string -> seq<Token>, d: Dialect, c: Checked, n: nat)
    requires ReadsPieces(read)
    ensures Reads(read, Inner(d, c, n), InnerToks(d, c, PlaceholderTok(d, n)))
  {
    var column, ctoks := ColumnText(d, c.table, c.column), ColumnToks(c.table, c.column);
    var cast, toks := CastText(d, column), CastToks(d, ctoks);
    ColumnReads(read, d, c.table, c.column);
    CastReads(read, d, column, ctoks);
    PlaceholderReads(read, d, n);
    if c.op.IsNull? {
      IsNullReads(read);
      NullTestReads(read, cast, toks, "IS NULL", OpToks(IsNull));
    } else if c.op.IsNotNull? {
      IsNotNullReads(read);
      NullTestReads(read, cast, toks, "IS NOT NULL", OpToks(IsNotNull));
    } else if c.op.ILike? {
      IlikeReads(read, d, cast, toks, Placeholder(d, n), PlaceholderTok(d, n));
    } else {
      OpSeparates(read, c.op);
      ReadsInfix(read, cast, toks, " " + c.op.Text() + " ", OpToks(c.op), Placeholder(d, n), [PlaceholderTok(d, n)]);
    }
  }

  lemma NotReads(read: string -> seq<Token>, inner: string, toks: seq<Token>)
    requires Separates(read, "(", [Sql.Sym("(")]) && Separates(read, ")", [Sql.Sym(")")]) && Separates(read, " ", [])
    requires Reads(read, "NOT", [Sql.Word("NOT")]) && Reads(read, inner, toks)
    ensures Reads(
              read, "(" + ("NOT" + (" " + ("(" + (inner + ")")))) + ")",
              [Sql.Sym("(")] + ([Sql.Word("NOT")] + ([Sql.Sym("(")] + (toks + [Sql.Sym(")")]))) + [Sql.Sym(")")])
  {
    var paren, ptoks := "(" + (inner + ")"), [Sql.Sym("(")] + (toks + [Sql.Sym(")")]);
    ParenReads(read, inner, toks);
    ReadsAfter(read, " ", [], paren, ptoks);
    assert [] + ptoks == ptoks;
    ReadsThen(read, "NOT", [Sql.Word("NOT")], " " + paren, ptoks);
    ParenReads(read, "NOT" + (" " + paren), [Sql.Word("NOT")] + ptoks);
  }

  lemma NotWordReads(read: string -> seq<Token>)
    requires ReadsPieces(read)
    ensures Reads(read, "NOT", [Sql.Word("NOT")])
  {
    assert IsBareName("NOT");
  }

  lemma WrappedReads(read: string -> seq<Token>, d: Dialect, c: Checked, n: nat)
    requires ReadsPieces(read)
    ensures Reads(read, Wrapped(d, c, n), WrappedToks(d, c, PlaceholderTok(d, n)))
  {
    InnerReads(read, d, c, n);
    var inner, toks := Inner(d, c, n), InnerToks(d, c, PlaceholderTok(d, n));
    if c.not {
      NotWordReads(read);
      NotReads(read, inner, toks);
    } else {
      ParenReads(read, inner, toks);
    }
  }
}

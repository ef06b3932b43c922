/**
 * The layout of JSON by its values: members one to a line, two spaces for each
 * level. Re-laying out a text of a value gives exactly this, however the text
 * was spaced.
 */
module JsonPretty {
  import opened Text
  import opened JsonText

  /** A value, its strings, numbers and literals as they are written. */
  datatype Json = Scalar(text: string) | Array(items: seq<Json>) | Object(members: seq<Member>)

  datatype Member = Member(name: string, value: Json)

  // ---- Values and their tokens ----

  predicate IsString(text: string) {
    text != "" && text[0] == '"' && Closed(text)
  }

  predicate IsMark(c: char) {
    c == '{' || c == '}' || c == '[' || c == ']' || c == ',' || c == ':' || c == '"'
  }

  /** What a scalar may be: a whole string, or text without marks and spaces. */
  predicate IsScalar(text: string) {
    IsString(text) || (text != "" && forall i :: 0 <= i < |text| ==> !IsMark(text[i]) && !IsJsonSpace(text[i]))
  }

  predicate IsValue(v: Json) {
    match v
    case Scalar(text) => IsScalar(text)
    case Array(items) => AreValues(items)
    case Object(members) => AreMembers(members)
  }

  predicate AreValues(items: seq<Json>) {
    items != [] ==> IsValue(items[0]) && AreValues(items[1..])
  }

  predicate AreMembers(members: seq<Member>) {
    members != [] ==> IsString(members[0].name) && IsValue(members[0].value) && AreMembers(members[1..])
  }

  /** Each character by itself. */
  function Characters(text: string): seq<string> {
    if text == "" then [] else [[text[0]]] + Characters(text[1..])
  }

  function ValueTokens(v: Json): seq<string> {
    match v
    case Scalar(text) => if IsString(text) then [text] else Characters(text)
    case Array(items) => ["["] + ItemTokens(items) + ["]"]
    case Object(members) => ["{"] + MemberTokens(members) + ["}"]
  }

  function ItemTokens(items: seq<Json>): seq<string> {
    if items == [] then []
    else ValueTokens(items[0]) + (if |items| > 1 then [","] else []) + ItemTokens(items[1..])
  }

  function MemberTokens(members: seq<Member>): seq<string> {
    if members == [] then []
    else
      [members[0].name, ":"] + ValueTokens(members[0].value) + (if |members| > 1 then [","] else [])
      + MemberTokens(members[1..])
  }

  // ---- How a value is laid out ----

  function Margin(depth: nat): string {
    if depth == 0 then "" else "  " + Margin(depth - 1)
  }

  function Line(depth: nat): string {
    "\n" + Margin(depth)
  }

  function Pretty(v: Json, depth: nat): string {
    match v
    case Scalar(text) => text
    case Array(items) => if items == [] then "[]" else "[" + PrettyItems(items, depth + 1) + Line(depth) + "]"
    case Object(members) => if members == [] then "{}" else "{" + PrettyMembers(members, depth + 1) + Line(depth) + "}"
  }

  function PrettyItems(items: seq<Json>, depth: nat): string {
    if items == [] then ""
    else
      Line(depth) + Pretty(items[0], depth) + (if |items| > 1 then "," else "") + PrettyItems(items[1..], depth)
  }

  function PrettyMembers(members: seq<Member>, depth: nat): string {
    if members == [] then ""
    else
      Line(depth) + members[0].name + ": " + Pretty(members[0].value, depth) + (if |members| > 1 then "," else "")
      + PrettyMembers(members[1..], depth)
  }

  // ---- Steps of the layout ----

  lemma {:induction false} MarginIs(depth: nat)
    ensures Margin(depth) == Spaces(2 * depth)
  {
    if depth > 0 {
      MarginIs(depth - 1);
    }
  }

  lemma LineIs(depth: nat)
    ensures NewLine(depth) == Line(depth)
  {
    MarginIs(depth);
  }

  /** A token laid out as itself. */
  predicate IsPlain(t: string) {
    t != "{" && t != "[" && t != "}" && t != "]" && t != "," && t != ":"
  }

  lemma PlainStep(t: string, rest: seq<string>, level: int)
    requires IsPlain(t)
    ensures Layout([t] + rest, level) == t + Layout(rest, level)
  {
    assert ([t] + rest)[1..] == rest;
  }

  lemma CommaStep(rest: seq<string>, depth: nat)
    ensures Layout([","] + rest, depth) == "," + (Line(depth) + Layout(rest, depth))
  {
    LineIs(depth);
    assert ([","] + rest)[1..] == rest;
  }

  lemma ColonStep(rest: seq<string>, level: int)
    ensures Layout([":"] + rest, level) == ": " + Layout(rest, level)
  {
    assert ([":"] + rest)[1..] == rest;
  }

  lemma CloseStep(t: string, rest: seq<string>, depth: nat)
    requires t == "}" || t == "]"
    ensures Layout([t] + rest, depth + 1) == Line(depth) + (t + Layout(rest, depth))
  {
    LineIs(depth);
    assert ([t] + rest)[1..] == rest;
  }

  lemma OpenStep(t: string, rest: seq<string>, depth: nat)
    requires (t == "{" || t == "[") && rest != [] && rest[0] != Closing(t)
    ensures Layout([t] + rest, depth) == t + (Line(depth + 1) + Layout(rest, depth + 1))
  {
    LayoutOpening(t, rest, depth);
    LineIs(depth + 1);
  }

  lemma EmptyStep(t: string, rest: seq<string>, level: int)
    requires t == "{" || t == "["
    ensures Layout([t] + ([Closing(t)] + rest), level) == t + Closing(t) + Layout(rest, level)
  {
    LayoutPair(t, rest, level);
    assert [t] + ([Closing(t)] + rest) == [t, Closing(t)] + rest;
  }

  /** Some token, and not one that closes a bracket. */
  predicate StartsValue(tokens: seq<string>) {
    tokens != [] && tokens[0] != "}" && tokens[0] != "]"
  }

  lemma ValueStarts(v: Json)
    requires IsValue(v)
    ensures StartsValue(ValueTokens(v))
  {
  }

  lemma {:induction false} CharactersStep(text: string, rest: seq<string>, level: int)
    requires forall i :: 0 <= i < |text| ==> !IsMark(text[i])
    ensures Layout(Characters(text) + rest, level) == text + Layout(rest, level)
  {
    if text == "" {
      assert Characters(text) + rest == rest;
    } else {
      CharactersStep(text[1..], rest, level);
      assert Characters(text) + rest == [[text[0]]] + (Characters(text[1..]) + rest);
      PlainStep([text[0]], Characters(text[1..]) + rest, level);
      assert text == [text[0]] + text[1..];
      ConcatAssoc([text[0]], text[1..], Layout(rest, level));
    }
  }

  // ---- A value, whatever follows it ----

  lemma {:induction false} ValueLaidOut(v: Json, rest: seq<string>, depth: nat)
    requires IsValue(v)
    ensures Layout(ValueTokens(v) + rest, depth) == Pretty(v, depth) + Layout(rest, depth)
    decreases v, 0
  {
    match v
    case Scalar(text) =>
      if IsString(text) {
        PlainStep(text, rest, depth);
      } else {
        CharactersStep(text, rest, depth);
      }
    case Array(items) =>
      var closed := ["]"] + rest;
      assert ValueTokens(v) + rest == ["["] + (ItemTokens(items) + closed);
      if items == [] {
        assert ItemTokens(items) + closed == closed;
        EmptyStep("[", rest, depth);
      } else {
        ValueStarts(items[0]);
        ItemsLaidOut(items, closed, depth + 1);
        OpenStep("[", ItemTokens(items) + closed, depth);
        CloseStep("]", rest, depth);
        Bracketed("[", PrettyItems(items, depth + 1), Line(depth), "]", Layout(rest, depth));
      }
    case Object(members) =>
      var closed := ["}"] + rest;
      assert ValueTokens(v) + rest == ["{"] + (MemberTokens(members) + closed);
      if members == [] {
        assert MemberTokens(members) + closed == closed;
        EmptyStep("{", rest, depth);
      } else {
        MembersLaidOut(members, closed, depth + 1);
        OpenStep("{", MemberTokens(members) + closed, depth);
        CloseStep("}", rest, depth);
        Bracketed("{", PrettyMembers(members, depth + 1), Line(depth), "}", Layout(rest, depth));
      }
  }

  lemma Bracketed(open: string, inner: string, line: string, close: string, rest: string)
    ensures open + (inner + (line + (close + rest))) == open + inner + line + close + rest
  {
  }

  lemma ItemSplit(value: seq<string>, comma: seq<string>, more: seq<string>, rest: seq<string>)
    ensures value + comma + more + rest == value + (comma + (more + rest))
  {
  }

  /** The items from a fresh line on; the layout puts that line break after what stands before them. */
  lemma {:induction false} ItemsLaidOut(items: seq<Json>, rest: seq<string>, depth: nat)
    requires items != [] && AreValues(items)
    ensures Line(depth) + Layout(ItemTokens(items) + rest, depth) == PrettyItems(items, depth) + Layout(rest, depth)
    decreases items, 1
  {
    var tail := ItemTokens(items[1..]) + rest;
    var comma: seq<string> := if |items| > 1 then [","] else [];
    ItemSplit(ValueTokens(items[0]), comma, ItemTokens(items[1..]), rest);
    ValueLaidOut(items[0], comma + tail, depth);
    var first := Pretty(items[0], depth);
    if |items| > 1 {
      CommaStep(tail, depth);
      ItemsLaidOut(items[1..], rest, depth);
      Separated(Line(depth), first, ",", PrettyItems(items[1..], depth), Layout(rest, depth));
    } else {
      assert comma + tail == rest;
      assert PrettyItems(items, depth) == Line(depth) + first;
      ConcatAssoc(Line(depth), first, Layout(rest, depth));
    }
  }

  lemma Separated(line: string, first: string, comma: string, more: string, rest: string)
    ensures line + (first + (comma + (more + rest))) == line + first + comma + more + rest
  {
  }

  lemma MemberSplit(name: string, value: seq<string>, comma: seq<string>, more: seq<string>, rest: seq<string>)
    ensures [name, ":"] + value + comma + more + rest == [name] + ([":"] + (value + (comma + (more + rest))))
  {
  }

  lemma NameStep(name: string, rest: seq<string>, level: int)
    requires IsPlain(name)
    ensures Layout([name] + ([":"] + rest), level) == name + (": " + Layout(rest, level))
  {
    PlainStep(name, [":"] + rest, level);
    ColonStep(rest, level);
  }

  lemma {:induction false} MembersLaidOut(members: seq<Member>, rest: seq<string>, depth: nat)
    requires members != [] && AreMembers(members)
    ensures Line(depth) + Layout(MemberTokens(members) + rest, depth)
         == PrettyMembers(members, depth) + Layout(rest, depth)
    ensures StartsValue(MemberTokens(members))
    decreases members, 1
  {
    var m, tail := members[0], MemberTokens(members[1..]) + rest;
    var comma: seq<string> := if |members| > 1 then [","] else [];
    MemberSplit(m.name, ValueTokens(m.value), comma, MemberTokens(members[1..]), rest);
    NameStep(m.name, ValueTokens(m.value) + (comma + tail), depth);
    ValueLaidOut(m.value, comma + tail, depth);
    var first := Pretty(m.value, depth);
    if |members| > 1 {
      CommaStep(tail, depth);
      MembersLaidOut(members[1..], rest, depth);
      NamedThen(Line(depth), m.name, first, ",", PrettyMembers(members[1..], depth), Layout(rest, depth));
    } else {
      assert comma + tail == rest;
      assert PrettyMembers(members, depth) == Line(depth) + m.name + ": " + first;
      NamedThen(Line(depth), m.name, first, "", "", Layout(rest, depth));
    }
  }

  lemma NamedThen(line: string, name: string, first: string, comma: string, more: string, rest: string)
    ensures line + (name + (": " + (first + (comma + (more + rest)))))
         == line + name + ": " + first + comma + more + rest
    ensures "" + rest == rest && line + name + ": " + first + "" + "" == line + name + ": " + first
  {
  }

  /** Every text of a value, however it is spaced, is laid out as the value is. */
  lemma ReindentIsPretty(v: Json, text: string, depth: nat)
    requires IsValue(v) && Lex(text) == ValueTokens(v)
    ensures Reindent(text, depth) == Pretty(v, depth)
  {
    ValueLaidOut(v, [], depth);
    assert ValueTokens(v) + [] == ValueTokens(v);
    assert Pretty(v, depth) + "" == Pretty(v, depth);
  }

  // ---- Every value has a text ----

  ghost predicate AllClosed(tokens: seq<string>) {
    forall i :: 0 <= i < |tokens| ==> Closed(tokens[i])
  }

  lemma {:induction false} ClosedAreLexed(tokens: seq<string>)
    requires AllClosed(tokens)
    ensures Lexed(tokens)
  {
    if |tokens| > 1 {
      assert forall i :: 0 <= i < |tokens[1..]| ==> tokens[1..][i] == tokens[i + 1];
      ClosedAreLexed(tokens[1..]);
    }
  }

  lemma {:induction false} CharactersClosed(text: string)
    requires forall i :: 0 <= i < |text| ==> !IsMark(text[i]) && !IsJsonSpace(text[i])
    ensures AllClosed(Characters(text))
  {
    if text != "" {
      CharactersClosed(text[1..]);
    }
  }

  lemma {:induction false} ValueClosed(v: Json)
    requires IsValue(v)
    ensures AllClosed(ValueTokens(v))
    decreases v, 0
  {
    match v
    case Scalar(text) =>
      if !IsString(text) {
        CharactersClosed(text);
      }
    case Array(items) => ItemsClosed(items);
    case Object(members) => MembersClosed(members);
  }

  lemma {:induction false} ItemsClosed(items: seq<Json>)
    requires AreValues(items)
    ensures AllClosed(ItemTokens(items))
    decreases items, 1
  {
    if items != [] {
      ValueClosed(items[0]);
      ItemsClosed(items[1..]);
    }
  }

  lemma {:induction false} MembersClosed(members: seq<Member>)
    requires AreMembers(members)
    ensures AllClosed(MemberTokens(members))
    decreases members, 1
  {
    if members != [] {
      ValueClosed(members[0].value);
      MembersClosed(members[1..]);
    }
  }

  /** The laid out value is itself a text of it, so laying it out again at its depth changes nothing. */
  lemma PrettyIsText(v: Json, depth: nat)
    requires IsValue(v)
    ensures Lex(Pretty(v, depth)) == ValueTokens(v) && Reindent(Pretty(v, depth), depth) == Pretty(v, depth)
  {
    ValueClosed(v);
    ClosedAreLexed(ValueTokens(v));
    LexLayout(ValueTokens(v), depth);
    ValueLaidOut(v, [], depth);
    assert ValueTokens(v) + [] == ValueTokens(v);
    assert Pretty(v, depth) + "" == Pretty(v, depth);
    ReindentIsPretty(v, Pretty(v, depth), depth);
  }
}

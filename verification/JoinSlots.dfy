/**
 * What each place in a spelled text is for, and that the completion scanner's
 * state says so before the token that stands there.
 */
module JoinSlots {
  import opened Outcomes
  import opened Text
  import opened JoinTypes
  import opened Grammar = JoinGrammar
  import opened JoinSpelling
  import opened Scanner = JoinScanner
  import opened Agreement = JoinScanAgreement
  import Reads = JoinSpellingRead

  // ---- Places ----

  /** What the language has at a place; `start` tells the start table from a joined one. */
  datatype Role =
    | TableName(name: string)
    | PastTable(start: bool)
    | AliasName(alias: string)
    | RefStart(ref: Reference)
    | RefDot(ref: Reference)
    | RefColumn(ref: Reference)
    | PastRef
    | Outside

  /** `other` is the reference a second side is compared with; it stays after a pair, as its second side. */
  datatype Slot = Slot(role: Role, other: Option<Reference>)

  function Filled(n: nat, slot: Slot): (slots: seq<Slot>)
    ensures |slots| == n && forall i :: 0 <= i < n ==> slots[i] == slot
  {
    seq(n, _ => slot)
  }

  function AliasSlots(alias: Option<string>, ch: TableChoice, start: bool, other: Option<Reference>): seq<Slot> {
    if alias.None? then []
    else if ch.asWord.None? then [Slot(PastTable(start), other)]
    else [Slot(PastTable(start), other), Slot(AliasName(alias.value), other)]
  }

  function TableSlots(t: JoinTable, ch: TableChoice, start: bool, other: Option<Reference>): seq<Slot> {
    [Slot(TableName(t.table), other)] + AliasSlots(t.alias, ch, start, other)
  }

  function RefSlots(ref: Reference, other: Option<Reference>): seq<Slot> {
    [Slot(RefStart(ref), other), Slot(RefDot(ref), other), Slot(RefColumn(ref), other)]
  }

  /** The two sides of a pair in the order they are written. */
  function InOrder(p: JoinPair, position: nat, tables: seq<JoinTable>, laterFirst: bool): (Reference, Reference)
    requires p.left.join < |tables| && position < |tables|
  {
    var left := Reference(tables[p.left.join].Name(), p.left.column);
    var right := Reference(tables[position].Name(), p.right);
    if laterFirst then (right, left) else (left, right)
  }

  function PairSlots(first: Reference, second: Reference): seq<Slot> {
    RefSlots(first, None) + ([Slot(PastRef, None)] + RefSlots(second, Some(first)))
  }

  /** The pairs from `k` on. */
  function PairsSlots(on: seq<JoinPair>, k: nat, position: nat, tables: seq<JoinTable>, chs: seq<PairChoice>): seq<Slot>
    requires k <= |on| == |chs| && position < |tables| && PairsWF(on, position)
    decreases |on| - k
  {
    if k == |on| then []
    else
      var (first, second) := InOrder(on[k], position, tables, chs[k].laterFirst);
      PairSlots(first, second)
      + ((if k + 1 < |on| then [Slot(PastRef, Some(second))] else []) + PairsSlots(on, k + 1, position, tables, chs))
  }

  /** Before the clause that joins the table at `position`. */
  function BeforeClause(position: nat): (role: Role)
    ensures position > 1 ==> role == PastRef
  {
    if position == 1 then PastTable(true) else PastRef
  }

  function ClauseSlots(
    j: JoinClause, position: nat, tables: seq<JoinTable>, ch: ClauseChoice, other: Option<Reference>): seq<Slot>
    requires 0 < position < |tables| && PairsWF(j.on, position) && |ch.pairs| == |j.on|
  {
    Filled(|KindSpelled(ch.kind)|, Slot(BeforeClause(position), other))
    + (TableSlots(tables[position], ch.table, false, other)
       + ([Slot(PastTable(false), other)] + PairsSlots(j.on, 0, position, tables, ch.pairs)))
  }

  /** The side of a clause's pairs that is written last. */
  function LastSide(j: JoinClause, position: nat, tables: seq<JoinTable>, ch: ClauseChoice): Reference
    requires position < |tables| && PairsWF(j.on, position) && 0 < |j.on| == |ch.pairs|
  {
    var k := |j.on| - 1;
    InOrder(j.on[k], position, tables, ch.pairs[k].laterFirst).1
  }

  /** The clauses from `i` on and the end of the text. */
  function ClausesSlots(def: JoinDef, i: nat, ch: Choices, other: Option<Reference>): seq<Slot>
    requires WellFormed(def) && Fits(def, ch) && i <= |def.joins|
    decreases |def.joins| - i
  {
    if i == |def.joins| then Filled(if ch.semicolon then 2 else 1, Slot(PastRef, other))
    else
      ClauseSlots(def.joins[i], i + 1, def.tables, ch.clauses[i], other)
      + ClausesSlots(def, i + 1, ch, Some(LastSide(def.joins[i], i + 1, def.tables, ch.clauses[i])))
  }

  /** A place for every token of the spelled text. */
  function Slots(def: JoinDef, ch: Choices): seq<Slot>
    requires WellFormed(def) && Fits(def, ch)
  {
    Filled(|SelectSpelled(def.columns, def.tables, ch.select)|, Slot(Outside, None))
    + ([Slot(Outside, None)] + (TableSlots(def.tables[0], ch.base, true, None) + ClausesSlots(def, 0, ch, None)))
  }

  // ---- What the grammar reads at a place ----

  /** `ref` is written with its first token at `k`. */
  predicate RefAt(toks: seq<Grammar.Token>, k: int, ref: Reference) {
    && 0 <= k && k + 3 <= |toks|
    && IsName(toks[k]) && toks[k].text == ref.qualifier && toks[k + 1] == Symbol('.')
    && IsName(toks[k + 2]) && toks[k + 2].text == ref.column
  }

  /** `ref`, with its first token at `k`, is the second side after `other`, or the first side where there is none. */
  predicate SideAt(toks: seq<Grammar.Token>, k: int, ref: Reference, other: Option<Reference>) {
    && RefAt(toks, k, ref)
    && match other
       case None => k + 3 < |toks| && toks[k + 3] == Symbol('=')
       case Some(first) => k > 0 && toks[k - 1] == Symbol('=') && RefAt(toks, k - 4, first)
  }

  predicate Stands(toks: seq<Grammar.Token>, k: nat, slot: Slot)
    requires k < |toks|
  {
    match slot.role
    case TableName(name) => IsName(toks[k]) && toks[k].text == name
    case AliasName(alias) => IsName(toks[k]) && toks[k].text == alias
    case RefStart(ref) => SideAt(toks, k, ref, slot.other)
    case RefDot(ref) => SideAt(toks, k - 1, ref, slot.other)
    case RefColumn(ref) => SideAt(toks, k - 2, ref, slot.other)
    case _ => true
  }

  // ---- What the scanner's state says ----

  function AsRef(ref: Option<Reference>): Option<Ref> {
    if ref.None? then None else Some(Ref(ref.value.qualifier, ref.value.column))
  }

  predicate Suits(slot: Slot, st: State) {
    && OtherSide(st) == AsRef(slot.other)
    && match slot.role
       case TableName(_) => st.mode == InTable
       case PastTable(start) => st.mode == AfterTable && st.from == start
       case AliasName(_) => st.mode == InAlias
       case PastRef => st.mode == AfterColumn
       case Outside => st.mode == Start || st.mode == InSelect
       case _ => st.mode == InColumn
  }

  /** After a dot: `st` is the state before the name that qualifies the place. */
  predicate SuitsDotted(slot: Slot, st: State) {
    && OtherSide(st) == AsRef(slot.other)
    && (slot.role.RefColumn? || slot.role.Outside?) && (slot.role.RefColumn? <==> st.mode == InColumn)
  }

  predicate AfterDot(toks: seq<Grammar.Token>, k: nat)
    requires k <= |toks|
  {
    k > 0 && toks[k - 1] == Symbol('.')
  }

  /** The state after the words of `toks`. */
  function After(toks: seq<Grammar.Token>, st: State): State {
    Run(WordsOf(toks, 0), st)
  }

  ghost predicate Holds(toks: seq<Grammar.Token>, k: nat, slot: Slot, st: State)
    requires k < |toks|
  {
    && Suits(slot, After(toks[..k], st))
    && (AfterDot(toks, k) ==> HoldsDotted(toks, k, slot, st))
  }

  ghost predicate HoldsDotted(toks: seq<Grammar.Token>, k: nat, slot: Slot, st: State)
    requires k < |toks|
  {
    && k > 1 && IsName(toks[k - 2]) && Readable(toks[k - 2])
    && SuitsDotted(slot, After(toks[..k - 2], st))
  }

  /** Whatever follows, the words of `toks` take the scanner from `st` to `st'`. */
  ghost predicate Drives(toks: seq<Grammar.Token>, st: State, st': State) {
    forall more: seq<Scanner.Word> {:trigger Run(WordsOf(toks, 0) + more, st)} ::
      Run(WordsOf(toks, 0) + more, st) == Run(more, st')
  }

  /** `slots` are the places of `toks`, which take the scanner from `st` to `st'`. */
  ghost predicate Led(toks: seq<Grammar.Token>, slots: seq<Slot>, st: State, st': State) {
    && |slots| == |toks| && !AfterDot(toks, |toks|) && Drives(toks, st, st')
    && forall k :: 0 <= k < |toks| ==> Holds(toks, k, slots[k], st)
  }

  /** What the grammar reads at each place is what stands there. */
  predicate AllStand(toks: seq<Grammar.Token>, slots: seq<Slot>) {
    |slots| == |toks| && forall k :: 0 <= k < |toks| ==> Stands(toks, k, slots[k])
  }

  ghost predicate Placed(toks: seq<Grammar.Token>, slots: seq<Slot>, st: State, st': State) {
    Led(toks, slots, st, st') && AllStand(toks, slots)
  }

  // ---- One part after another ----

  lemma {:induction false} WordsOfBoth(a: seq<Grammar.Token>, b: seq<Grammar.Token>)
    ensures WordsOf(a + b, 0) == WordsOf(a, 0) + WordsOf(b, 0)
  {
    if a == [] {
      assert a + b == b;
    } else {
      assert (a + b)[1..] == a[1..] + b;
      WordsOfBoth(a[1..], b);
    }
  }

  lemma DrivesBoth(a: seq<Grammar.Token>, b: seq<Grammar.Token>, st: State, st1: State, st2: State)
    requires Drives(a, st, st1) && Drives(b, st1, st2)
    ensures Drives(a + b, st, st2)
  {
    forall more: seq<Scanner.Word>
      ensures Run(WordsOf(a + b, 0) + more, st) == Run(more, st2)
    {
      WordsOfBoth(a, b);
      ConcatAssoc(WordsOf(a, 0), WordsOf(b, 0), more);
    }
  }

  lemma AfterBoth(a: seq<Grammar.Token>, b: seq<Grammar.Token>, st: State, st1: State)
    requires Drives(a, st, st1)
    ensures After(a + b, st) == After(b, st1)
  {
    WordsOfBoth(a, b);
  }

  lemma HoldsFirst(a: seq<Grammar.Token>, b: seq<Grammar.Token>, k: nat, slot: Slot, st: State)
    requires k < |a| && Holds(a, k, slot, st)
    ensures Holds(a + b, k, slot, st)
  {
    assert (a + b)[..k] == a[..k];
    if AfterDot(a, k) {
      assert (a + b)[..k - 2] == a[..k - 2] && (a + b)[k - 2] == a[k - 2];
    }
  }

  lemma HoldsLater(a: seq<Grammar.Token>, b: seq<Grammar.Token>, k: nat, slot: Slot, st: State, st1: State)
    requires !AfterDot(a, |a|) && Drives(a, st, st1) && k < |b| && Holds(b, k, slot, st1)
    ensures Holds(a + b, |a| + k, slot, st)
  {
    var n := |a| + k;
    assert (a + b)[..n] == a + b[..k];
    AfterBoth(a, b[..k], st, st1);
    if AfterDot(a + b, n) {
      assert k > 0 && AfterDot(b, k);
      assert (a + b)[..n - 2] == a + b[..k - 2] && (a + b)[n - 2] == b[k - 2];
      AfterBoth(a, b[..k - 2], st, st1);
    }
  }

  lemma LedBoth(
    a: seq<Grammar.Token>, sa: seq<Slot>, b: seq<Grammar.Token>, sb: seq<Slot>, st: State, st1: State, st2: State)
    requires Led(a, sa, st, st1) && Led(b, sb, st1, st2)
    ensures Led(a + b, sa + sb, st, st2)
  {
    DrivesBoth(a, b, st, st1, st2);
    forall k | 0 <= k < |a + b|
      ensures Holds(a + b, k, (sa + sb)[k], st)
    {
      if k < |a| {
        HoldsFirst(a, b, k, sa[k], st);
      } else {
        HoldsLater(a, b, k - |a|, sb[k - |a|], st, st1);
      }
    }
  }

  lemma StandsFirst(a: seq<Grammar.Token>, b: seq<Grammar.Token>, k: nat, slot: Slot)
    requires k < |a| && Stands(a, k, slot)
    ensures Stands(a + b, k, slot)
  {
    assert forall i :: 0 <= i < |a| ==> (a + b)[i] == a[i];
  }

  lemma StandsLater(a: seq<Grammar.Token>, b: seq<Grammar.Token>, k: nat, slot: Slot)
    requires k < |b| && Stands(b, k, slot)
    ensures Stands(a + b, |a| + k, slot)
  {
    assert forall i :: 0 <= i < |b| ==> (a + b)[|a| + i] == b[i];
  }

  lemma StandsBoth(a: seq<Grammar.Token>, sa: seq<Slot>, b: seq<Grammar.Token>, sb: seq<Slot>)
    requires AllStand(a, sa) && AllStand(b, sb)
    ensures AllStand(a + b, sa + sb)
  {
    forall k | 0 <= k < |a + b|
      ensures Stands(a + b, k, (sa + sb)[k])
    {
      if k < |a| {
        StandsFirst(a, b, k, sa[k]);
      } else {
        StandsLater(a, b, k - |a|, sb[k - |a|]);
      }
    }
  }

  lemma PlacedBoth(
    a: seq<Grammar.Token>, sa: seq<Slot>, b: seq<Grammar.Token>, sb: seq<Slot>, st: State, st1: State, st2: State)
    requires Placed(a, sa, st, st1) && Placed(b, sb, st1, st2)
    ensures Placed(a + b, sa + sb, st, st2)
  {
    LedBoth(a, sa, b, sb, st, st1, st2);
    StandsBoth(a, sa, b, sb);
  }

  lemma PlacedNothing(st: State)
    ensures Placed([], [], st, st)
  {
    forall more: seq<Scanner.Word>
      ensures Run(WordsOf([], 0) + more, st) == Run(more, st)
    {
      assert WordsOf([], 0) + more == more;
    }
  }

  // ---- Single tokens ----

  /** Whatever follows, the word `w` takes the scanner from `st` to `st'`. */
  ghost predicate Steps(w: Scanner.Word, st: State, st': State) {
    forall more: seq<Scanner.Word> :: Run([w] + more, st) == Run(more, st')
  }

  lemma StepsTo(w: Scanner.Word, st: State, st': State)
    requires forall more: seq<Scanner.Word> :: WordStep([w] + more, st).0 == st'
    requires !(st.mode == InColumn && w.kind == Name)
    ensures Steps(w, st, st')
  {
    forall more: seq<Scanner.Word>
      ensures Run([w] + more, st) == Run(more, st')
    {
      var words := [w] + more;
      assert words[1..] == more;
      assert WordStep(words, st).1 == words[1..];
    }
  }

  lemma OneWord(t: Grammar.Token)
    ensures WordsOf([t], 0) == [WordOf(t)]
  {
    assert WordsOf([t][1..], 0) == [];
  }

  lemma OneLed(t: Grammar.Token, slot: Slot, st: State, st': State)
    requires t != Symbol('.') && Suits(slot, st) && Steps(WordOf(t), st, st')
    ensures Led([t], [slot], st, st')
  {
    OneWord(t);
    assert [t][..0] == [];
  }

  lemma KeywordLed(word: string, i: nat, slot: Slot, st: State) returns (st': State)
    requires i < |KEYWORDS| && Says(word, KEYWORDS[i])
    requires slot.role.PastTable? || slot.role.PastRef? || slot.role.Outside?
    requires Suits(slot, st)
    ensures st' == KeywordStep(KEYWORDS[i], st) && Placed([Grammar.Word(word)], [slot], st, st')
  {
    st' := KeywordStep(KEYWORDS[i], st);
    ListedAt(KEYWORDS, i);
    StepsTo(WordOf(Grammar.Word(word)), st, st');
    OneLed(Grammar.Word(word), slot, st, st');
  }

  lemma NameIs(name: string, quoted: bool)
    requires name != ""
    ensures var t := NameSpelled(name, quoted);
            IsName(t) && Readable(t) && t.text == name && WordOf(t).kind == Name && Unquote(WordOf(t).text) == name
  {
    NameIsUnquoted(NameSpelled(name, quoted));
  }

  lemma NameLed(name: string, quoted: bool, slot: Slot, st: State) returns (st': State)
    requires name != "" && st.mode != InColumn
    requires match slot.role
             case TableName(n) => n == name
             case AliasName(n) => n == name
             case PastTable(_) => true
             case Outside => true
             case _ => false
    requires Suits(slot, st)
    ensures st' == NameStep(name, st) && Placed([NameSpelled(name, quoted)], [slot], st, st')
  {
    st' := NameStep(name, st);
    NameIs(name, quoted);
    StepsTo(WordOf(NameSpelled(name, quoted)), st, st');
    OneLed(NameSpelled(name, quoted), slot, st, st');
  }

  lemma SymbolLed(c: char, slot: Slot, st: State) returns (st': State)
    requires c != '.' && (slot.role.PastRef? || slot.role.Outside?) && Suits(slot, st)
    ensures st' == if c == '=' && st.mode == AfterColumn then st.(mode := InColumn, afterEq := true) else st
    ensures Placed([Symbol(c)], [slot], st, st')
  {
    st' := if c == '=' && st.mode == AfterColumn then st.(mode := InColumn, afterEq := true) else st;
    StepsTo(WordOf(Symbol(c)), st, st');
    OneLed(Symbol(c), slot, st, st');
  }

  // ---- Tables ----

  lemma AliasLed(alias: Option<string>, ch: TableChoice, start: bool, other: Option<Reference>, st: State)
    returns (st': State)
    requires (alias.Some? ==> alias.value != "") && TableFits(ch) && Suits(Slot(PastTable(start), other), st)
    ensures Suits(Slot(PastTable(start), other), st')
    ensures Placed(AliasSpelled(alias, ch), AliasSlots(alias, ch, start, other), st, st')
  {
    var past := Slot(PastTable(start), other);
    if alias.None? {
      PlacedNothing(st);
      st' := st;
    } else if ch.asWord.None? {
      st' := NameLed(alias.value, ch.aliasQuoted, past, st);
      assert [] + [NameSpelled(alias.value, ch.aliasQuoted)] == [NameSpelled(alias.value, ch.aliasQuoted)];
    } else {
      var named := Slot(AliasName(alias.value), other);
      var st1 := KeywordLed(ch.asWord.value, Reads.AS, past, st);
      st' := NameLed(alias.value, ch.aliasQuoted, named, st1);
      PlacedBoth(
        [Grammar.Word(ch.asWord.value)], [past], [NameSpelled(alias.value, ch.aliasQuoted)], [named], st, st1, st');
      assert [past] + [named] == [past, named];
    }
  }

  lemma TableLed(t: JoinTable, ch: TableChoice, start: bool, other: Option<Reference>, st: State)
    returns (st': State)
    requires t.WellFormed() && TableFits(ch) && Suits(Slot(TableName(t.table), other), st) && st.from == start
    ensures Suits(Slot(PastTable(start), other), st')
    ensures Placed(TableSpelled(t, ch), TableSlots(t, ch, start, other), st, st')
  {
    var slot := Slot(TableName(t.table), other);
    var st1 := NameLed(t.table, ch.quoted, slot, st);
    st' := AliasLed(t.alias, ch, start, other, st1);
    PlacedBoth(
      [NameSpelled(t.table, ch.quoted)], [slot], AliasSpelled(t.alias, ch), AliasSlots(t.alias, ch, start, other),
      st, st1, st');
  }

  // ---- Dotted names ----

  lemma ThreeWords(a: Grammar.Token, b: Grammar.Token, c: Grammar.Token)
    ensures WordsOf([a, b, c], 0) == [WordOf(a), WordOf(b), WordOf(c)]
    ensures WordsOf([a, b, c][..1], 0) == [WordOf(a)] && WordsOf([a, b, c][..2], 0) == [WordOf(a), WordOf(b)]
    ensures [a, b, c][..0] == []
  {
    var toks := [a, b, c];
    assert toks[..1] == [a] && toks[..2] == [a, b];
    assert toks[1..] == [b, c] && [b, c][1..] == [c];
    assert [a, b][1..] == [b];
    OneWord(a);
    OneWord(b);
    OneWord(c);
  }

  /** A name and the dot after it leave the state as it is. */
  lemma DottedWaits(name: Scanner.Word, st: State)
    requires name.kind == Name && (st.mode == InColumn || st.mode == InSelect)
    ensures var dot := WordOf(Symbol('.')); Run([name], st) == st && Run([name, dot], st) == st
  {
    var dot := WordOf(Symbol('.'));
    assert [name, dot][1..] == [dot] && [name][1..] == [] && [dot][1..] == [];
  }

  lemma RefDrives(a: Scanner.Word, b: Scanner.Word, st: State, more: seq<Scanner.Word>)
    requires a.kind == Name && b.kind == Name && st.mode == InColumn
    ensures Run([a, WordOf(Symbol('.')), b] + more, st)
         == Run(more, st.(refs := st.refs + [Ref(Unquote(a.text), Unquote(b.text))], mode := AfterColumn))
  {
    var words := [a, WordOf(Symbol('.')), b] + more;
    assert words[3..] == more;
    DottedStep(words, st);
  }

  /** The three places of a dotted name, for a state that waits for its end. */
  lemma DottedLed(toks: seq<Grammar.Token>, slots: seq<Slot>, st: State, st': State)
    requires |toks| == 3 == |slots| && IsName(toks[0]) && Readable(toks[0]) && toks[1] == Symbol('.')
    requires toks[2] != Symbol('.') && (st.mode == InColumn || st.mode == InSelect) && Drives(toks, st, st')
    requires Suits(slots[0], st) && Suits(slots[1], st) && Suits(slots[2], st) && SuitsDotted(slots[2], st)
    ensures Led(toks, slots, st, st')
  {
    assert toks == [toks[0], toks[1], toks[2]];
    NameIsUnquoted(toks[0]);
    ThreeWords(toks[0], toks[1], toks[2]);
    DottedWaits(WordOf(toks[0]), st);
  }

  lemma RefLed(ref: Reference, ch: RefChoice, other: Option<Reference>, st: State) returns (st': State)
    requires ref.qualifier != "" && ref.column != "" && Suits(Slot(RefStart(ref), other), st)
    ensures st' == st.(refs := st.refs + [Ref(ref.qualifier, ref.column)], mode := AfterColumn)
    ensures var toks := RefSpelled(ref.qualifier, ref.column, ch);
            Led(toks, RefSlots(ref, other), st, st') && |toks| == 3 && RefAt(toks, 0, ref)
  {
    st' := st.(refs := st.refs + [Ref(ref.qualifier, ref.column)], mode := AfterColumn);
    var a, b := NameSpelled(ref.qualifier, ch.tableQuoted), NameSpelled(ref.column, ch.columnQuoted);
    NameIs(ref.qualifier, ch.tableQuoted);
    NameIs(ref.column, ch.columnQuoted);
    ThreeWords(a, Symbol('.'), b);
    forall more: seq<Scanner.Word>
      ensures Run(WordsOf([a, Symbol('.'), b], 0) + more, st) == Run(more, st')
    {
      RefDrives(WordOf(a), WordOf(b), st, more);
    }
    DottedLed([a, Symbol('.'), b], RefSlots(ref, other), st, st');
  }

  // ---- Pairs ----

  lemma SidesStand(a: seq<Grammar.Token>, b: seq<Grammar.Token>, first: Reference, second: Reference)
    requires |a| == 3 && RefAt(a, 0, first) && |b| == 3 && RefAt(b, 0, second)
    ensures AllStand(a + ([Symbol('=')] + b), PairSlots(first, second))
  {
    var toks, slots := a + ([Symbol('=')] + b), PairSlots(first, second);
    assert forall i :: 0 <= i < 3 ==> toks[i] == a[i] && toks[4 + i] == b[i];
    assert RefAt(toks, 0, first) && toks[3] == Symbol('=') && RefAt(toks, 4, second);
  }

  /** Just after ON or AND. */
  predicate AtPair(st: State) {
    st.mode == InColumn && !st.afterEq && st.refs == []
  }

  lemma SidesLed(first: Reference, second: Reference, ca: RefChoice, cb: RefChoice, st: State) returns (st': State)
    requires first.qualifier != "" && first.column != "" && second.qualifier != "" && second.column != ""
    requires AtPair(st)
    ensures Suits(Slot(PastRef, Some(second)), st')
    ensures var toks := RefSpelled(first.qualifier, first.column, ca)
                        + ([Symbol('=')] + RefSpelled(second.qualifier, second.column, cb));
            Placed(toks, PairSlots(first, second), st, st')
  {
    var a, b := RefSpelled(first.qualifier, first.column, ca), RefSpelled(second.qualifier, second.column, cb);
    var eq := Slot(PastRef, None);
    var st1 := RefLed(first, ca, None, st);
    var st2 := SymbolLed('=', eq, st1);
    st' := RefLed(second, cb, Some(first), st2);
    LedBoth([Symbol('=')], [eq], b, RefSlots(second, Some(first)), st1, st2, st');
    LedBoth(a, RefSlots(first, None), [Symbol('=')] + b, [eq] + RefSlots(second, Some(first)), st, st1, st');
    SidesStand(a, b, first, second);
  }

  lemma PairLed(p: JoinPair, position: nat, tables: seq<JoinTable>, ch: PairChoice, st: State) returns (st': State)
    requires TablesWF(tables) && p.left.join < |tables| && position < |tables| && p.left.column != "" && p.right != ""
    requires AtPair(st)
    ensures var (first, second) := InOrder(p, position, tables, ch.laterFirst);
            && Suits(Slot(PastRef, Some(second)), st')
            && Placed(PairSpelled(p, position, tables, ch), PairSlots(first, second), st, st')
  {
    var (first, second) := InOrder(p, position, tables, ch.laterFirst);
    st' := SidesLed(
      first, second, if ch.laterFirst then ch.right else ch.left, if ch.laterFirst then ch.left else ch.right, st);
  }

  lemma {:induction false} PairsLed(
    on: seq<JoinPair>, k: nat, position: nat, tables: seq<JoinTable>, chs: seq<PairChoice>, st: State)
    returns (st': State)
    requires TablesWF(tables) && position < |tables| && PairsWF(on, position) && k < |on| && PairsFit(on, chs)
    requires AtPair(st)
    ensures var second := InOrder(on[|on| - 1], position, tables, chs[|on| - 1].laterFirst).1;
            Suits(Slot(PastRef, Some(second)), st')
    ensures Placed(PairsSpelled(on, k, position, tables, chs), PairsSlots(on, k, position, tables, chs), st, st')
    decreases |on| - k
  {
    var (first, second) := InOrder(on[k], position, tables, chs[k].laterFirst);
    var toks, slots := PairSpelled(on[k], position, tables, chs[k]), PairSlots(first, second);
    var st1 := PairLed(on[k], position, tables, chs[k], st);
    if k + 1 == |on| {
      st' := st1;
      assert toks + ([] + []) == toks && slots + ([] + []) == slots;
    } else {
      var past := Slot(PastRef, Some(second));
      var st2 := KeywordLed(chs[k].andWord, Reads.AND, past, st1);
      st' := PairsLed(on, k + 1, position, tables, chs, st2);
      var more, places := PairsSpelled(on, k + 1, position, tables, chs), PairsSlots(on, k + 1, position, tables, chs);
      PlacedBoth([Grammar.Word(chs[k].andWord)], [past], more, places, st1, st2, st');
      PlacedBoth(toks, slots, [Grammar.Word(chs[k].andWord)] + more, [past] + places, st, st1, st');
    }
  }

  // ---- Clauses ----

  predicate BetweenClauses(slot: Slot) {
    slot.role == PastTable(true) || slot.role == PastRef
  }

  /** INNER, LEFT and OUTER change nothing that is asked for. */
  lemma KindWordLed(word: string, i: nat, slot: Slot, st: State) returns (st': State)
    requires 3 <= i <= 5 && Says(word, KEYWORDS[i]) && BetweenClauses(slot) && Suits(slot, st)
    ensures Suits(slot, st') && Placed([Grammar.Word(word)], [slot], st, st')
  {
    st' := KeywordLed(word, i, slot, st);
  }

  lemma JoinWordLed(word: string, slot: Slot, st: State) returns (st': State)
    requires Says(word, "JOIN") && BetweenClauses(slot) && Suits(slot, st)
    ensures st'.mode == InTable && !st'.from && OtherSide(st') == AsRef(slot.other)
    ensures Placed([Grammar.Word(word)], [slot], st, st')
  {
    st' := KeywordLed(word, Reads.JOIN, slot, st);
  }

  lemma WordThen(
    toks: seq<Grammar.Token>, word: string, rest: seq<Grammar.Token>, slot: Slot, st: State, st1: State, st2: State)
    requires Placed([Grammar.Word(word)], [slot], st, st1) && Placed(rest, Filled(|rest|, slot), st1, st2)
    requires toks == [Grammar.Word(word)] + rest
    ensures Placed(toks, Filled(|toks|, slot), st, st2)
  {
    PlacedBoth([Grammar.Word(word)], [slot], rest, Filled(|rest|, slot), st, st1, st2);
    assert [slot] + Filled(|rest|, slot) == Filled(|toks|, slot);
  }

  /** JOIN, with the word before it that says which. */
  lemma WordJoinLed(word: string, i: nat, join: string, slot: Slot, st: State) returns (st': State)
    requires 3 <= i <= 5 && Says(word, KEYWORDS[i]) && Says(join, "JOIN") && BetweenClauses(slot) && Suits(slot, st)
    ensures st'.mode == InTable && !st'.from && OtherSide(st') == AsRef(slot.other)
    ensures Placed([Grammar.Word(word), Grammar.Word(join)], Filled(2, slot), st, st')
  {
    var st1 := KindWordLed(word, i, slot, st);
    st' := JoinWordLed(join, slot, st1);
    assert Filled(1, slot) == [slot];
    WordThen([Grammar.Word(word), Grammar.Word(join)], word, [Grammar.Word(join)], slot, st, st1, st');
  }

  lemma KindLed(kind: JoinType, ch: KindChoice, slot: Slot, st: State) returns (st': State)
    requires KindFits(kind, ch) && BetweenClauses(slot) && Suits(slot, st)
    ensures st'.mode == InTable && !st'.from && OtherSide(st') == AsRef(slot.other)
    ensures Placed(KindSpelled(ch), Filled(|KindSpelled(ch)|, slot), st, st')
  {
    match ch
    case Bare(join) =>
      assert Filled(1, slot) == [slot];
      st' := JoinWordLed(join, slot, st);
    case WithInner(inner, join) =>
      st' := WordJoinLed(inner, Reads.INNER, join, slot, st);
    case WithLeft(left, join) =>
      st' := WordJoinLed(left, Reads.LEFT, join, slot, st);
    case WithOuter(left, outer, join) =>
      var st1 := KindWordLed(left, Reads.LEFT, slot, st);
      st' := WordJoinLed(outer, Reads.OUTER, join, slot, st1);
      WordThen(KindSpelled(ch), left, [Grammar.Word(outer), Grammar.Word(join)], slot, st, st1, st');
  }

  /** The table a clause joins, ON, and its pairs. */
  lemma JoinedLed(
    j: JoinClause, position: nat, tables: seq<JoinTable>, ch: ClauseChoice, other: Option<Reference>, st: State)
    returns (st': State)
    requires TablesWF(tables) && 0 < position < |tables| && PairsWF(j.on, position) && j.on != [] && ClauseFits(j, ch)
    requires Suits(Slot(TableName(tables[position].table), other), st) && !st.from
    ensures Suits(Slot(PastRef, Some(LastSide(j, position, tables, ch))), st')
    ensures Placed(
              TableSpelled(tables[position], ch.table)
              + ([Grammar.Word(ch.onWord)] + PairsSpelled(j.on, 0, position, tables, ch.pairs)),
              TableSlots(tables[position], ch.table, false, other)
              + ([Slot(PastTable(false), other)] + PairsSlots(j.on, 0, position, tables, ch.pairs)), st, st')
  {
    var on := Slot(PastTable(false), other);
    var st1 := TableLed(tables[position], ch.table, false, other, st);
    var st2 := KeywordLed(ch.onWord, Reads.ON, on, st1);
    st' := PairsLed(j.on, 0, position, tables, ch.pairs, st2);
    PlacedThree(
      TableSpelled(tables[position], ch.table), TableSlots(tables[position], ch.table, false, other),
      [Grammar.Word(ch.onWord)], [on], PairsSpelled(j.on, 0, position, tables, ch.pairs),
      PairsSlots(j.on, 0, position, tables, ch.pairs), st, st1, st2, st');
  }

  lemma PlacedThree(
    a: seq<Grammar.Token>, sa: seq<Slot>, b: seq<Grammar.Token>, sb: seq<Slot>, c: seq<Grammar.Token>, sc: seq<Slot>,
    st: State, st1: State, st2: State, st3: State)
    requires Placed(a, sa, st, st1) && Placed(b, sb, st1, st2) && Placed(c, sc, st2, st3)
    ensures Placed(a + (b + c), sa + (sb + sc), st, st3)
  {
    PlacedBoth(b, sb, c, sc, st1, st2, st3);
    PlacedBoth(a, sa, b + c, sb + sc, st, st1, st3);
  }

  lemma ClauseLed(
    j: JoinClause, position: nat, tables: seq<JoinTable>, ch: ClauseChoice, other: Option<Reference>, st: State)
    returns (st': State)
    requires TablesWF(tables) && 0 < position < |tables| && PairsWF(j.on, position) && j.on != [] && ClauseFits(j, ch)
    requires Suits(Slot(BeforeClause(position), other), st)
    ensures Suits(Slot(PastRef, Some(LastSide(j, position, tables, ch))), st')
    ensures Placed(ClauseSpelled(j, position, tables, ch), ClauseSlots(j, position, tables, ch, other), st, st')
  {
    var slot := Slot(BeforeClause(position), other);
    var st1 := KindLed(j.kind, ch.kind, slot, st);
    st' := JoinedLed(j, position, tables, ch, other, st1);
    PlacedBoth(
      KindSpelled(ch.kind), Filled(|KindSpelled(ch.kind)|, slot),
      TableSpelled(tables[position], ch.table)
      + ([Grammar.Word(ch.onWord)] + PairsSpelled(j.on, 0, position, tables, ch.pairs)),
      TableSlots(tables[position], ch.table, false, other)
      + ([Slot(PastTable(false), other)] + PairsSlots(j.on, 0, position, tables, ch.pairs)), st, st1, st');
  }

  lemma EndLed(semicolon: bool, slot: Slot, st: State) returns (st': State)
    requires slot.role == PastRef && Suits(slot, st)
    ensures Placed(Reads.Ending(semicolon), Filled(if semicolon then 2 else 1, slot), st, st')
  {
    StepsTo(WordOf(End), st, st);
    OneLed(End, slot, st, st);
    st' := st;
    if semicolon {
      var _ := SymbolLed(';', slot, st);
      PlacedBoth([Symbol(';')], [slot], [End], [slot], st, st, st);
      assert Filled(2, slot) == [slot] + [slot];
    } else {
      assert Filled(1, slot) == [slot] && [] + [End] == [End];
    }
  }

  /** What is known of clause `i`. */
  lemma ClauseOf(def: JoinDef, i: nat, ch: Choices)
    requires WellFormed(def) && Fits(def, ch) && i < |def.joins|
    ensures TablesWF(def.tables) && i + 1 < |def.tables| && PairsWF(def.joins[i].on, i + 1) && def.joins[i].on != []
    ensures ClauseFits(def.joins[i], ch.clauses[i])
  {
  }

  lemma ClausesNext(def: JoinDef, i: nat, ch: Choices, other: Option<Reference>, last: Reference)
    requires WellFormed(def) && Fits(def, ch) && i < |def.joins|
    requires i + 1 < |def.tables| && PairsWF(def.joins[i].on, i + 1) && def.joins[i].on != []
    requires ClauseFits(def.joins[i], ch.clauses[i])
    requires last == LastSide(def.joins[i], i + 1, def.tables, ch.clauses[i])
    ensures ClausesSpelled(def, i, ch)
         == ClauseSpelled(def.joins[i], i + 1, def.tables, ch.clauses[i]) + ClausesSpelled(def, i + 1, ch)
    ensures ClausesSlots(def, i, ch, other)
         == ClauseSlots(def.joins[i], i + 1, def.tables, ch.clauses[i], other)
            + ClausesSlots(def, i + 1, ch, Some(last))
  {
  }

  lemma ClauseAtLed(def: JoinDef, i: nat, ch: Choices, other: Option<Reference>, st: State)
    returns (toks: seq<Grammar.Token>, slots: seq<Slot>, last: Option<Reference>, st': State)
    requires WellFormed(def) && Fits(def, ch) && i < |def.joins|
    requires Suits(Slot(BeforeClause(i + 1), other), st)
    ensures Placed(toks, slots, st, st') && Suits(Slot(PastRef, last), st')
    ensures ClausesSpelled(def, i, ch) == toks + ClausesSpelled(def, i + 1, ch)
    ensures ClausesSlots(def, i, ch, other) == slots + ClausesSlots(def, i + 1, ch, last)
  {
    ClauseOf(def, i, ch);
    var j, chosen := def.joins[i], ch.clauses[i];
    var side := LastSide(j, i + 1, def.tables, chosen);
    ClausesNext(def, i, ch, other, side);
    toks, slots := ClauseSpelled(j, i + 1, def.tables, chosen), ClauseSlots(j, i + 1, def.tables, chosen, other);
    last := Some(side);
    st' := ClauseLed(j, i + 1, def.tables, chosen, other, st);
  }

  lemma {:induction false} ClausesLed(def: JoinDef, i: nat, ch: Choices, other: Option<Reference>, st: State)
    returns (toks: seq<Grammar.Token>, slots: seq<Slot>, st': State)
    requires WellFormed(def) && Fits(def, ch) && i <= |def.joins|
    requires Suits(Slot(BeforeClause(i + 1), other), st)
    ensures toks == ClausesSpelled(def, i, ch) && slots == ClausesSlots(def, i, ch, other)
    ensures Placed(toks, slots, st, st')
    decreases |def.joins| - i
  {
    if i == |def.joins| {
      toks, slots := ClausesSpelled(def, i, ch), ClausesSlots(def, i, ch, other);
      st' := EndLed(ch.semicolon, Slot(PastRef, other), st);
    } else {
      var first, firstSlots, last, st1 := ClauseAtLed(def, i, ch, other, st);
      var more, moreSlots, st2 := ClausesLed(def, i + 1, ch, last, st1);
      PlacedBoth(first, firstSlots, more, moreSlots, st, st1, st2);
      toks, slots, st' := first + more, firstSlots + moreSlots, st2;
    }
  }

  // ---- The select part ----

  const OUTSIDE := Slot(Outside, None)

  predicate InList(st: State) {
    st.mode == InSelect && Suits(OUTSIDE, st)
  }

  lemma IdleStep(words: seq<Scanner.Word>, st: State)
    requires words != [] && words[0].kind != Keyword && st.mode == InSelect
    ensures Run(words, st) == Run(words[1..], st)
  {
  }

  lemma ItemDrives(a: Scanner.Word, b: Scanner.Word, st: State, more: seq<Scanner.Word>)
    requires a.kind == Name && b.kind != Keyword && st.mode == InSelect
    ensures Run([a, WordOf(Symbol('.')), b] + more, st) == Run(more, st)
  {
    var dot := WordOf(Symbol('.'));
    var words := [a, dot, b] + more;
    IdleStep(words, st);
    assert words[1..] == [dot] + ([b] + more);
    IdleStep([dot] + ([b] + more), st);
    assert ([dot] + ([b] + more))[1..] == [b] + more;
    IdleStep([b] + more, st);
    assert ([b] + more)[1..] == more;
  }

  lemma ItemLed(c: JoinColumn, tables: seq<JoinTable>, ch: RefChoice, st: State)
    requires TablesWF(tables) && c.join < |tables| && (c.Single? ==> c.column != "") && InList(st)
    ensures |ItemSpelled(c, tables, ch)| == 3
    ensures Placed(ItemSpelled(c, tables, ch), Filled(3, OUTSIDE), st, st)
  {
    var a := NameSpelled(tables[c.join].Name(), ch.tableQuoted);
    var b := if c.Whole? then Symbol('*') else NameSpelled(c.column, ch.columnQuoted);
    NameIs(tables[c.join].Name(), ch.tableQuoted);
    if c.Single? {
      NameIs(c.column, ch.columnQuoted);
    }
    ThreeWords(a, Symbol('.'), b);
    forall more: seq<Scanner.Word>
      ensures Run(WordsOf([a, Symbol('.'), b], 0) + more, st) == Run(more, st)
    {
      ItemDrives(WordOf(a), WordOf(b), st, more);
    }
    DottedLed([a, Symbol('.'), b], Filled(3, OUTSIDE), st, st);
  }

  lemma FilledBoth(
    a: seq<Grammar.Token>, b: seq<Grammar.Token>, m: nat, n: nat, slot: Slot, st: State, st1: State, st2: State)
    requires Placed(a, Filled(m, slot), st, st1) && Placed(b, Filled(n, slot), st1, st2)
    ensures Placed(a + b, Filled(m + n, slot), st, st2)
  {
    PlacedBoth(a, Filled(m, slot), b, Filled(n, slot), st, st1, st2);
    assert Filled(m, slot) + Filled(n, slot) == Filled(m + n, slot);
  }

  lemma {:induction false} ItemsLed(cs: seq<JoinColumn>, k: nat, tables: seq<JoinTable>, chs: seq<RefChoice>, st: State)
    requires TablesWF(tables) && ColumnsWF(cs, |tables|) && k <= |cs| == |chs| && InList(st)
    ensures var toks := ItemsSpelled(cs, k, tables, chs); Placed(toks, Filled(|toks|, OUTSIDE), st, st)
    decreases |cs| - k
  {
    if k == |cs| {
      PlacedNothing(st);
      assert Filled(0, OUTSIDE) == [];
    } else {
      var item, more := ItemSpelled(cs[k], tables, chs[k]), ItemsSpelled(cs, k + 1, tables, chs);
      ItemLed(cs[k], tables, chs[k], st);
      if k + 1 == |cs| {
        assert item + ([] + []) == item;
      } else {
        var _ := SymbolLed(',', OUTSIDE, st);
        assert Filled(1, OUTSIDE) == [OUTSIDE];
        ItemsLed(cs, k + 1, tables, chs, st);
        FilledBoth([Symbol(',')], more, 1, |more|, OUTSIDE, st, st, st);
        FilledBoth(item, [Symbol(',')] + more, 3, 1 + |more|, OUTSIDE, st, st, st);
      }
    }
  }

  lemma SelectLed(columns: Option<seq<JoinColumn>>, tables: seq<JoinTable>, ch: SelectChoice, st: State)
    returns (st': State)
    requires TablesWF(tables) && SelectFits(columns, ch) && (columns.Some? ==> ColumnsWF(columns.value, |tables|))
    requires st.mode == Start && Suits(OUTSIDE, st)
    ensures Suits(OUTSIDE, st')
    ensures var toks := SelectSpelled(columns, tables, ch); Placed(toks, Filled(|toks|, OUTSIDE), st, st')
  {
    assert Filled(1, OUTSIDE) == [OUTSIDE];
    match ch
    case Absent =>
      st' := st;
      PlacedNothing(st);
      assert Filled(0, OUTSIDE) == [];
    case Star(select) =>
      st' := KeywordLed(select, Reads.SELECT, OUTSIDE, st);
      var _ := SymbolLed('*', OUTSIDE, st');
      FilledBoth([Grammar.Word(select)], [Symbol('*')], 1, 1, OUTSIDE, st, st', st');
      assert [Grammar.Word(select)] + [Symbol('*')] == [Grammar.Word(select), Symbol('*')];
    case Listing(select, items) =>
      st' := KeywordLed(select, Reads.SELECT, OUTSIDE, st);
      var list := ItemsSpelled(columns.value, 0, tables, items);
      ItemsLed(columns.value, 0, tables, items, st');
      FilledBoth([Grammar.Word(select)], list, 1, |list|, OUTSIDE, st, st', st');
  }

  // ---- The whole text ----

  /** Every place of a spelled text suits the state the words before it lead to. */
  lemma SlotsPlaced(def: JoinDef, ch: Choices, st: State) returns (st': State)
    requires WellFormed(def) && Fits(def, ch) && st == START
    ensures Placed(Spelled(def, ch), Slots(def, ch), st, st')
  {
    var select := SelectSpelled(def.columns, def.tables, ch.select);
    var table := TableSpelled(def.tables[0], ch.base);
    var st1 := SelectLed(def.columns, def.tables, ch.select, st);
    var st2 := KeywordLed(ch.fromWord, Reads.FROM, OUTSIDE, st1);
    var st3 := TableLed(def.tables[0], ch.base, true, None, st2);
    var _, _, st4 := ClausesLed(def, 0, ch, None, st3);
    st' := st4;
    var tableSlots, clauses := TableSlots(def.tables[0], ch.base, true, None), ClausesSlots(def, 0, ch, None);
    PlacedBoth(table, tableSlots, ClausesSpelled(def, 0, ch), clauses, st2, st3, st');
    PlacedBoth(
      [Grammar.Word(ch.fromWord)], [OUTSIDE], table + ClausesSpelled(def, 0, ch), tableSlots + clauses, st1, st2, st');
    PlacedBoth(
      select, Filled(|select|, OUTSIDE), [Grammar.Word(ch.fromWord)] + (table + ClausesSpelled(def, 0, ch)),
      [OUTSIDE] + (tableSlots + clauses), st, st1, st');
  }

  // ---- Which tables and references there are places for ----

  function Picked<T>(pick: Slot -> Option<T>, slots: seq<Slot>): seq<T> {
    if slots == [] then []
    else (if pick(slots[0]).Some? then [pick(slots[0]).value] else []) + Picked(pick, slots[1..])
  }

  lemma {:induction false} PickedBoth<T>(pick: Slot -> Option<T>, a: seq<Slot>, b: seq<Slot>)
    ensures Picked(pick, a + b) == Picked(pick, a) + Picked(pick, b)
  {
    if a == [] {
      assert a + b == b;
    } else {
      assert (a + b)[1..] == a[1..] + b;
      PickedBoth(pick, a[1..], b);
      ConcatAssoc(if pick(a[0]).Some? then [pick(a[0]).value] else [], Picked(pick, a[1..]), Picked(pick, b));
    }
  }

  lemma {:induction false} PickedNone<T>(pick: Slot -> Option<T>, slots: seq<Slot>)
    requires forall i :: 0 <= i < |slots| ==> pick(slots[i]).None?
    ensures Picked(pick, slots) == []
  {
    if slots != [] {
      PickedNone(pick, slots[1..]);
    }
  }

  function TableAt(slot: Slot): Option<string> {
    if slot.role.TableName? then Some(slot.role.name) else None
  }

  /** A reference and, where it is a second side, the first. */
  function SideOf(slot: Slot): Option<(Reference, Option<Reference>)> {
    if slot.role.RefStart? then Some((slot.role.ref, slot.other)) else None
  }

  function TableNames(tables: seq<JoinTable>): seq<string> {
    seq(|tables|, i requires 0 <= i < |tables| => tables[i].table)
  }

  /** The sides of the pairs from `k` on, as written. */
  function SidesFrom(on: seq<JoinPair>, k: nat, position: nat, tables: seq<JoinTable>, chs: seq<PairChoice>)
    : seq<(Reference, Option<Reference>)>
    requires k <= |on| == |chs| && position < |tables| && PairsWF(on, position)
    decreases |on| - k
  {
    if k == |on| then []
    else
      var (first, second) := InOrder(on[k], position, tables, chs[k].laterFirst);
      [(first, None), (second, Some(first))] + SidesFrom(on, k + 1, position, tables, chs)
  }

  /** The sides of the clauses from `i` on. */
  function AllSides(def: JoinDef, i: nat, ch: Choices): seq<(Reference, Option<Reference>)>
    requires WellFormed(def) && Fits(def, ch) && i <= |def.joins|
    decreases |def.joins| - i
  {
    if i == |def.joins| then []
    else SidesFrom(def.joins[i].on, 0, i + 1, def.tables, ch.clauses[i].pairs) + AllSides(def, i + 1, ch)
  }

  lemma PickedFirst<T>(pick: Slot -> Option<T>, slot: Slot, rest: seq<Slot>)
    ensures Picked(pick, [slot] + rest)
         == (if pick(slot).Some? then [pick(slot).value] else []) + Picked(pick, rest)
  {
    assert ([slot] + rest)[1..] == rest;
  }

  lemma TablePicked(t: JoinTable, ch: TableChoice, start: bool, other: Option<Reference>)
    ensures Picked(TableAt, TableSlots(t, ch, start, other)) == [t.table]
    ensures Picked(SideOf, TableSlots(t, ch, start, other)) == []
  {
    var alias := AliasSlots(t.alias, ch, start, other);
    PickedNone(TableAt, alias);
    PickedNone(SideOf, alias);
    PickedFirst(TableAt, Slot(TableName(t.table), other), alias);
    PickedFirst(SideOf, Slot(TableName(t.table), other), alias);
  }

  lemma PairPicked(first: Reference, second: Reference)
    ensures Picked(SideOf, PairSlots(first, second)) == [(first, None), (second, Some(first))]
    ensures Picked(TableAt, PairSlots(first, second)) == []
  {
    PickedNone(TableAt, PairSlots(first, second));
    var after := [Slot(PastRef, None)] + RefSlots(second, Some(first));
    PickedBoth(SideOf, RefSlots(first, None), after);
    PickedFirst(SideOf, Slot(PastRef, None), RefSlots(second, Some(first)));
    RefPicked(first, None);
    RefPicked(second, Some(first));
  }

  lemma RefPicked(ref: Reference, other: Option<Reference>)
    ensures Picked(SideOf, RefSlots(ref, other)) == [(ref, other)]
  {
    var more := [Slot(RefDot(ref), other), Slot(RefColumn(ref), other)];
    PickedNone(SideOf, more);
    PickedFirst(SideOf, Slot(RefStart(ref), other), more);
    assert RefSlots(ref, other) == [Slot(RefStart(ref), other)] + more;
  }

  lemma NextPairPicked(on: seq<JoinPair>, k: nat, position: nat, tables: seq<JoinTable>, chs: seq<PairChoice>)
    returns (pair: seq<Slot>, and: seq<Slot>)
    requires k < |on| == |chs| && position < |tables| && PairsWF(on, position)
    ensures PairsSlots(on, k, position, tables, chs) == pair + (and + PairsSlots(on, k + 1, position, tables, chs))
    ensures forall i :: 0 <= i < |and| ==> TableAt(and[i]).None? && SideOf(and[i]).None?
    ensures Picked(TableAt, pair) == []
    ensures SidesFrom(on, k, position, tables, chs)
         == Picked(SideOf, pair) + SidesFrom(on, k + 1, position, tables, chs)
  {
    var (first, second) := InOrder(on[k], position, tables, chs[k].laterFirst);
    pair := PairSlots(first, second);
    and := if k + 1 < |on| then [Slot(PastRef, Some(second))] else [];
    PairPicked(first, second);
  }

  lemma {:induction false} PairsPicked(
    on: seq<JoinPair>, k: nat, position: nat, tables: seq<JoinTable>, chs: seq<PairChoice>)
    requires k <= |on| == |chs| && position < |tables| && PairsWF(on, position)
    ensures Picked(TableAt, PairsSlots(on, k, position, tables, chs)) == []
    ensures Picked(SideOf, PairsSlots(on, k, position, tables, chs)) == SidesFrom(on, k, position, tables, chs)
    decreases |on| - k
  {
    if k < |on| {
      var pair, and := NextPairPicked(on, k, position, tables, chs);
      PairsPicked(on, k + 1, position, tables, chs);
      ThreePicked(TableAt, pair, and, PairsSlots(on, k + 1, position, tables, chs));
      ThreePicked(SideOf, pair, and, PairsSlots(on, k + 1, position, tables, chs));
    }
  }

  lemma ThreePicked<T>(pick: Slot -> Option<T>, a: seq<Slot>, b: seq<Slot>, c: seq<Slot>)
    requires forall i :: 0 <= i < |b| ==> pick(b[i]).None?
    ensures Picked(pick, a + (b + c)) == Picked(pick, a) + Picked(pick, c)
  {
    PickedNone(pick, b);
    PickedBoth(pick, b, c);
    PickedBoth(pick, a, b + c);
    assert [] + Picked(pick, c) == Picked(pick, c);
  }

  lemma ClausePicked(
    j: JoinClause, position: nat, tables: seq<JoinTable>, ch: ClauseChoice, other: Option<Reference>)
    requires 0 < position < |tables| && PairsWF(j.on, position) && |ch.pairs| == |j.on|
    ensures Picked(TableAt, ClauseSlots(j, position, tables, ch, other)) == [tables[position].table]
    ensures Picked(SideOf, ClauseSlots(j, position, tables, ch, other))
         == SidesFrom(j.on, 0, position, tables, ch.pairs)
  {
    var kind := Filled(|KindSpelled(ch.kind)|, Slot(BeforeClause(position), other));
    var table := TableSlots(tables[position], ch.table, false, other);
    var on, pairs := [Slot(PastTable(false), other)], PairsSlots(j.on, 0, position, tables, ch.pairs);
    TablePicked(tables[position], ch.table, false, other);
    PairsPicked(j.on, 0, position, tables, ch.pairs);
    ThreePicked(TableAt, table, on, pairs);
    ThreePicked(SideOf, table, on, pairs);
    ThreePicked(TableAt, [], kind, table + (on + pairs));
    ThreePicked(SideOf, [], kind, table + (on + pairs));
    assert [] + (kind + (table + (on + pairs))) == kind + (table + (on + pairs));
  }

  lemma NextPicked(def: JoinDef, i: nat, ch: Choices, other: Option<Reference>)
    returns (clause: seq<Slot>, last: Option<Reference>)
    requires WellFormed(def) && Fits(def, ch) && i < |def.joins| && i + 1 < |def.tables|
    ensures ClausesSlots(def, i, ch, other) == clause + ClausesSlots(def, i + 1, ch, last)
    ensures Picked(TableAt, clause) == [def.tables[i + 1].table]
    ensures Picked(SideOf, clause) + AllSides(def, i + 1, ch) == AllSides(def, i, ch)
  {
    ClauseOf(def, i, ch);
    clause := ClauseSlots(def.joins[i], i + 1, def.tables, ch.clauses[i], other);
    var side := LastSide(def.joins[i], i + 1, def.tables, ch.clauses[i]);
    last := Some(side);
    ClausesNext(def, i, ch, other, side);
    ClausePicked(def.joins[i], i + 1, def.tables, ch.clauses[i], other);
  }

  lemma {:induction false} ClausesPicked(def: JoinDef, i: nat, ch: Choices, other: Option<Reference>)
    returns (slots: seq<Slot>)
    requires WellFormed(def) && Fits(def, ch) && i <= |def.joins|
    ensures i + 1 <= |def.tables| && slots == ClausesSlots(def, i, ch, other)
    ensures Picked(TableAt, slots) == TableNames(def.tables[i + 1..]) && Picked(SideOf, slots) == AllSides(def, i, ch)
    decreases |def.joins| - i
  {
    if i == |def.joins| {
      slots := Filled(if ch.semicolon then 2 else 1, Slot(PastRef, other));
      EndPicked(if ch.semicolon then 2 else 1, other);
    } else {
      var clause, last := NextPicked(def, i, ch, other);
      var more := ClausesPicked(def, i + 1, ch, last);
      slots := clause + more;
      ClauseThenPicked(def.tables, i + 1, clause, more, AllSides(def, i + 1, ch));
    }
  }

  lemma ClauseThenPicked(
    tables: seq<JoinTable>, n: nat, clause: seq<Slot>, more: seq<Slot>, sides: seq<(Reference, Option<Reference>)>)
    requires n < |tables| && Picked(TableAt, clause) == [tables[n].table]
    requires Picked(TableAt, more) == TableNames(tables[n + 1..]) && Picked(SideOf, more) == sides
    ensures Picked(TableAt, clause + more) == TableNames(tables[n..])
    ensures Picked(SideOf, clause + more) == Picked(SideOf, clause) + sides
  {
    PickedBoth(TableAt, clause, more);
    PickedBoth(SideOf, clause, more);
    NamesNext(tables, n);
  }

  lemma EndPicked(n: nat, other: Option<Reference>)
    ensures Picked(TableAt, Filled(n, Slot(PastRef, other))) == []
    ensures Picked(SideOf, Filled(n, Slot(PastRef, other))) == []
  {
    PickedNone(TableAt, Filled(n, Slot(PastRef, other)));
    PickedNone(SideOf, Filled(n, Slot(PastRef, other)));
  }

  /** What stands outside picks nothing. */
  lemma PickedInside<T>(pick: Slot -> Option<T>, n: nat, a: seq<Slot>, b: seq<Slot>)
    requires pick(OUTSIDE).None?
    ensures Picked(pick, Filled(n, OUTSIDE) + ([OUTSIDE] + (a + b))) == Picked(pick, a) + Picked(pick, b)
  {
    PickedNone(pick, Filled(n, OUTSIDE));
    PickedBoth(pick, Filled(n, OUTSIDE), [OUTSIDE] + (a + b));
    PickedFirst(pick, OUTSIDE, a + b);
    PickedBoth(pick, a, b);
    assert [] + (Picked(pick, a) + Picked(pick, b)) == Picked(pick, a) + Picked(pick, b);
  }

  lemma NamesNext(tables: seq<JoinTable>, i: nat)
    requires i < |tables|
    ensures TableNames(tables[i..]) == [tables[i].table] + TableNames(tables[i + 1..])
  {
  }

  /**
   * The places for a table name are the definition's tables, in order, and the
   * places where a reference starts are the sides of its pairs, in the order written.
   */
  lemma PlacesAreAll(def: JoinDef, ch: Choices)
    requires WellFormed(def) && Fits(def, ch)
    ensures Picked(TableAt, Slots(def, ch)) == TableNames(def.tables)
    ensures Picked(SideOf, Slots(def, ch)) == AllSides(def, 0, ch)
  {
    var n := |SelectSpelled(def.columns, def.tables, ch.select)|;
    var table := TableSlots(def.tables[0], ch.base, true, None);
    var clauses := ClausesPicked(def, 0, ch, None);
    TablePicked(def.tables[0], ch.base, true, None);
    PickedInside(TableAt, n, table, clauses);
    PickedInside(SideOf, n, table, clauses);
    AllNames(def.tables);
    assert [] + AllSides(def, 0, ch) == AllSides(def, 0, ch);
    SlotsAre(def, ch, n, table, clauses);
  }

  lemma AllNames(tables: seq<JoinTable>)
    requires tables != []
    ensures TableNames(tables) == [tables[0].table] + TableNames(tables[1..])
  {
  }

  lemma SlotsAre(def: JoinDef, ch: Choices, n: nat, table: seq<Slot>, clauses: seq<Slot>)
    requires WellFormed(def) && Fits(def, ch) && n == |SelectSpelled(def.columns, def.tables, ch.select)|
    requires table == TableSlots(def.tables[0], ch.base, true, None) && clauses == ClausesSlots(def, 0, ch, None)
    ensures Slots(def, ch) == Filled(n, OUTSIDE) + ([OUTSIDE] + (table + clauses))
  {
  }
}

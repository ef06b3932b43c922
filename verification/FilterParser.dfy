/**
 * The filter parser as it runs: one cursor into the text, moved on as things
 * are read and put back after the column when IS [NOT] NULL does not follow.
 * Each method is proved to do what the function of the same name in FilterDsl says.
 */
module FilterParser {
  import opened Outcomes
  import opened Text
  import opened FilterTypes
  import Dsl = FilterDsl

  type Aliases = Option<seq<string>>

  /** The answer of reading something: what it was and the text after it. */
  ghost predicate Answers<T(!new)>(spec: Option<(T, string)>, r: Option<T>, ahead: string) {
    match spec
    case None => r == None
    case Some((value, rest)) => r == Some(value) && ahead == rest
  }

  class Parser {
    const text: string
    const aliases: Aliases
    var pos: nat

    /** The text not read yet. */
    ghost function Ahead(): string
      reads this
    {
      if pos <= |text| then text[pos..] else ""
    }

    ghost predicate Valid()
      reads this
    {
      pos <= |text|
    }

    constructor (text: string, aliases: Aliases)
      ensures Valid() && this.text == text && this.aliases == aliases && Ahead() == text
    {
      this.text, this.aliases, pos := text, aliases, 0;
    }

    lemma AheadFrom(i: nat)
      requires Valid() && pos <= i <= |text|
      ensures Ahead()[i - pos..] == text[i..] && Ahead()[..i - pos] == text[pos..i]
    {
    }

    /** Where the run of class `k` at character `from` ends. */
    method RunEnd(k: CharClass, from: nat) returns (i: nat)
      requires from <= |text|
      ensures i == from + Span(k, text[from..])
    {
      i := from;
      while i < |text| && k.Has(text[i])
        invariant from <= i <= |text|
        invariant forall j :: from <= j < i ==> k.Has(text[j])
      {
        i := i + 1;
      }
      SpanIs(k, text[from..], i - from);
    }

    method SkipSpace()
      requires Valid()
      modifies this
      ensures Valid() && pos >= old(pos) && Ahead() == Dsl.SkipSpace(old(Ahead()))
    {
      var i := RunEnd(Space, pos);
      AheadFrom(i);
      pos := i;
    }

    /** Whether there was space, all of it skipped. */
    method NeedSpace() returns (ok: bool)
      requires Valid()
      modifies this
      ensures Valid() && ok == Dsl.NeedSpace(old(Ahead())).Some?
      ensures ok ==> Dsl.NeedSpace(old(Ahead())) == Some(Ahead())
    {
      var start := pos;
      var i := RunEnd(Space, pos);
      AheadFrom(i);
      pos := i;
      ok := pos != start;
    }

    method MatchKeyword(keyword: string) returns (r: bool)
      requires Valid()
      ensures r == Dsl.KeywordAt(keyword, Ahead())
    {
      var i := 0;
      while i < |keyword|
        invariant i <= |keyword| && pos + i <= |text|
        invariant forall j :: 0 <= j < i ==> UpperAscii(Ahead()[j]) == keyword[j]
      {
        if pos + i >= |text| || UpperAscii(text[pos + i]) != keyword[i] {
          return false;
        }
        i := i + 1;
      }
      r := pos + i >= |text| || !Dsl.IsWordChar(text[pos + i]);
    }

    method ConsumeKeyword(keyword: string) returns (r: bool)
      requires Valid()
      modifies this
      ensures Valid() && r == Dsl.KeywordAt(keyword, old(Ahead()))
      ensures Ahead() == if r then old(Ahead())[|keyword|..] else old(Ahead())
      ensures pos == if r then old(pos) + |keyword| else old(pos)
    {
      r := MatchKeyword(keyword);
      if r {
        AheadFrom(pos + |keyword|);
        pos := pos + |keyword|;
      }
    }

    /** Reads `c` if it comes next. */
    method Take(c: char) returns (r: bool)
      requires Valid()
      modifies this
      ensures Valid() && r == Dsl.StartsWith(old(Ahead()), c)
      ensures Ahead() == if r then old(Ahead())[1..] else old(Ahead())
      ensures pos >= old(pos)
    {
      r := pos < |text| && text[pos] == c;
      if r {
        AheadFrom(pos + 1);
        pos := pos + 1;
      }
    }

    method Name() returns (r: Option<string>)
      requires Valid()
      modifies this
      ensures Valid() && Answers(Dsl.Name(old(Ahead())), r, Ahead())
    {
      if pos >= |text| || !IsNameStart(text[pos]) {
        return None;
      }
      var start := pos;
      var i := RunEnd(NameChar, pos + 1);
      AheadFrom(pos + 1);
      AheadFrom(i);
      pos := i;
      return Some(text[start..pos]);
    }

    /** Quoted text from just after its opening quote: what it spells and where it ends. */
    method Quoted(from: nat, q: char) returns (r: Option<(string, nat)>)
      requires from <= |text|
      ensures r == match ScanQuoted(text[from..], q)
                   case None => None
                   case Some((value, n)) => Some((value, from + n))
    {
      ScanLoopIs(text, from, "", q);
      assert forall value: string :: "" + value == value;
      var value, i := "", from;
      while i < |text|
        invariant i <= |text| && ScanLoop(text, from, "", q) == ScanLoop(text, i, value, q)
      {
        if text[i] == q {
          if i + 1 < |text| && text[i + 1] == q {
            value := value + [q];
            i := i + 2;
          } else {
            return Some((value, i + 1));
          }
        } else {
          value := value + [text[i]];
          i := i + 1;
        }
      }
      return None;
    }

    method QuotedAlias() returns (r: Option<string>)
      requires Valid() && Dsl.StartsWith(Ahead(), '"')
      modifies this
      ensures Valid() && Answers(Dsl.QuotedAlias(old(Ahead())), r, Ahead())
    {
      AheadFrom(pos + 1);
      var quoted := Quoted(pos + 1, '"');
      if quoted.None? || quoted.value.0 == "" {
        return None;
      }
      AheadFrom(quoted.value.1);
      pos := quoted.value.1;
      return Some(quoted.value.0);
    }

    /** Position of the first alias spelled `name`. */
    method IndexOf(list: seq<string>, name: string) returns (r: Option<nat>)
      ensures r == Dsl.IndexOf(list, name)
    {
      for i := 0 to |list|
        invariant forall k :: 0 <= k < i ==> list[k] != name
      {
        if list[i] == name {
          Dsl.IndexOfIs(list, i);
          return Some(i);
        }
      }
      return None;
    }

    method Column() returns (r: Option<Dsl.ColumnName>)
      requires Valid()
      modifies this
      ensures Valid() && Answers(Dsl.Column(old(Ahead()), aliases), r, Ahead())
    {
      var quoted := aliases.Some? && pos < |text| && text[pos] == '"';
      var first: Option<string>;
      if quoted {
        first := QuotedAlias();
      } else {
        first := Name();
      }
      if first.None? {
        return None;
      }
      var dot := Take('.');
      if !quoted && !dot {
        return Some(Dsl.ColumnName(first.value, if aliases.Some? then Some(0) else None));
      }
      if aliases.None? || !dot {
        return None;
      }
      r := Qualified(first.value);
    }

    /** The column after `alias.`. */
    method Qualified(alias: string) returns (r: Option<Dsl.ColumnName>)
      requires Valid() && aliases.Some?
      modifies this
      ensures Valid()
      ensures match Dsl.Name(old(Ahead()))
              case None => r == None
              case Some((column, rest)) =>
                var join := Dsl.IndexOf(aliases.value, alias);
                if Dsl.StartsWith(rest, '.') || join.None? then r == None
                else r == Some(Dsl.ColumnName(column, join)) && Ahead() == rest
    {
      var column := Name();
      if column.None? || (pos < |text| && text[pos] == '.') {
        return None;
      }
      var join := IndexOf(aliases.value, alias);
      if join.None? {
        return None;
      }
      return Some(Dsl.ColumnName(column.value, join));
    }

    method Operator() returns (r: Option<Op>)
      requires Valid()
      modifies this
      ensures Valid() && Answers(Dsl.Operator(old(Ahead())), r, Ahead())
    {
      var word := ConsumeKeyword("ILIKE");
      if word {
        return Some(ILike);
      }
      word := ConsumeKeyword("LIKE");
      if word {
        return Some(Like);
      }
      if pos >= |text| {
        return None;
      }
      var c := text[pos];
      if pos + 1 < |text| && text[pos + 1] == '=' && (c == '>' || c == '<' || c == '!') {
        AheadFrom(pos + 2);
        pos := pos + 2;
        return Some(if c == '>' then Ge else if c == '<' then Le else Ne);
      }
      if c == '>' || c == '<' || c == '=' {
        AheadFrom(pos + 1);
        pos := pos + 1;
        return Some(if c == '>' then Gt else if c == '<' then Lt else Eq);
      }
      return None;
    }

    method ReadValue() returns (r: Option<string>)
      requires Valid()
      modifies this
      ensures Valid() && Answers(Dsl.ReadValue(old(Ahead())), r, Ahead())
    {
      if pos < |text| && text[pos] == '\'' {
        AheadFrom(pos + 1);
        var quoted := Quoted(pos + 1, '\'');
        if quoted.None? {
          return None;
        }
        AheadFrom(quoted.value.1);
        pos := quoted.value.1;
        return Some(quoted.value.0);
      }
      var start := pos;
      var i := RunEnd(BareValueChar, pos);
      AheadFrom(i);
      pos := i;
      if pos == start || Dsl.IsLogicWord(text[start..pos]) {
        return None;
      }
      return Some(text[start..pos]);
    }

    /** IS [NOT] NULL, from just after IS. */
    method NullTail() returns (r: Option<Op>)
      requires Valid()
      modifies this
      ensures Valid() && Answers(Dsl.NullTail(old(Ahead())), r, Ahead())
    {
      var ok := NeedSpace();
      if !ok {
        return None;
      }
      var isNot := ConsumeKeyword("NOT");
      if isNot {
        ok := NeedSpace();
        if !ok {
          return None;
        }
      }
      var isNull := ConsumeKeyword("NULL");
      if !isNull {
        return None;
      }
      return Some(if isNot then IsNotNull else IsNull);
    }

    method Comparison(column: Dsl.ColumnName) returns (r: Option<Dsl.Simple>)
      requires Valid()
      modifies this
      ensures Valid() && Answers(Dsl.Comparison(column, old(Ahead())), r, Ahead())
    {
      SkipSpace();
      var op := Operator();
      if op.None? {
        return None;
      }
      SkipSpace();
      var value := ReadValue();
      if value.None? {
        return None;
      }
      return Some(Dsl.Simple(column, op.value, value));
    }

    /** Tries IS [NOT] NULL, and goes back to just after the column when it does not apply. */
    method SimpleCondition() returns (r: Option<Dsl.Simple>)
      requires Valid()
      modifies this
      ensures Valid() && Answers(Dsl.SimpleCondition(old(Ahead()), aliases), r, Ahead())
    {
      var column := Column();
      if column.None? {
        return None;
      }
      var afterColumn := pos;
      if pos < |text| && IsSpace(text[pos]) {
        SkipSpace();
        var isWord := ConsumeKeyword("IS");
        if isWord {
          var op := NullTail();
          if op.None? {
            return None;
          }
          return Some(Dsl.Simple(column.value, op.value, None));
        }
        pos := afterColumn;
      }
      r := Comparison(column.value);
    }

    method ReadCondition(logic: Option<Logic>) returns (r: Option<Condition>)
      requires Valid()
      modifies this
      ensures Valid() && Answers(Dsl.ReadCondition(old(Ahead()), logic, aliases), r, Ahead())
    {
      var not := ConsumeKeyword("NOT");
      if not {
        var ok := NeedSpace();
        if !ok {
          return None;
        }
      }
      var simple := SimpleCondition();
      if simple.None? {
        return None;
      }
      return Some(Dsl.ToCondition(logic, not, simple.value));
    }

    method Joiner() returns (r: Option<Logic>)
      requires Valid()
      modifies this
      ensures Valid() && Answers(Dsl.Joiner(old(Ahead())), r, Ahead())
    {
      var logic: Logic;
      var word := ConsumeKeyword("AND");
      if word {
        logic := And;
      } else {
        word := ConsumeKeyword("OR");
        if !word {
          return None;
        }
        logic := Or;
      }
      var ok := NeedSpace();
      if !ok {
        return None;
      }
      return Some(logic);
    }

    method Conditions() returns (r: Option<seq<Condition>>)
      requires Valid()
      modifies this
      ensures r == Dsl.Conditions(old(Ahead()), None, [], aliases)
    {
      var conditions: seq<Condition> := [];
      var pending: Option<Logic> := None;
      ghost var answer := Dsl.Conditions(Ahead(), None, [], aliases);
      while true
        invariant Valid() && |conditions| <= MAX_CONDITIONS
        invariant answer == Dsl.Conditions(Ahead(), pending, conditions, aliases)
        decreases MAX_CONDITIONS - |conditions|
      {
        var condition := ReadCondition(pending);
        if condition.None? {
          return None;
        }
        conditions := conditions + [condition.value];
        if |conditions| > MAX_CONDITIONS {
          return None;
        }
        if pos >= |text| {
          return Some(conditions);
        }
        var ok := NeedSpace();
        if !ok {
          return None;
        }
        if pos >= |text| {
          return Some(conditions);
        }
        pending := Joiner();
        if pending.None? {
          return None;
        }
      }
    }
  }

  /** The parser reads every text, in every view, as the grammar does. */
  method ParseFilter(input: string, aliases: Aliases) returns (r: Option<seq<Condition>>)
    ensures r == Dsl.Parse(input, aliases)
  {
    if Dsl.TooLong(input) {
      return None;
    }
    var p := new Parser(input, aliases);
    r := p.Conditions();
  }
}

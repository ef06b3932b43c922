/** How a join view names its columns: in filter clauses and sort keys, and back. */
module JoinView {
  import opened Outcomes
  import opened Text
  import opened JoinTypes
  import JoinGrammar
  import JoinPrinter
  import opened FilterDsl
  import opened FilterCompose

  /** The effective names of `tables`, in order. */
  function Aliases(tables: seq<JoinTable>): seq<string> {
    seq(|tables|, i requires 0 <= i < |tables| => tables[i].Name())
  }

  /** AND, OR and NOT are quoted on top of what the join language quotes. */
  function FilterQualifier(name: string): string {
    if IsLogicWord(name) then ['"'] + name + ['"'] else JoinPrinter.QuoteName(name)
  }

  function ColumnKey(tables: seq<JoinTable>, join: nat, column: string): string
    requires join < |tables|
  {
    FilterQualifier(tables[join].Name()) + "." + column
  }

  /** `alias.` at the start of a key: the alias, and what follows the dot. */
  function Qualified(key: string): Option<(string, string)> {
    if key == "" then None
    else if key[0] == '"' then
      match ScanQuoted(key[1..], '"')
      case None => None
      case Some((name, n)) =>
        var rest := key[n + 1..];
        if name != "" && |rest| > 1 && rest[0] == '.' then Some((name, rest[1..])) else None
    else
      match Name(key)
      case None => None
      case Some((name, rest)) => if |rest| > 1 && rest[0] == '.' then Some((name, rest[1..])) else None
  }

  /** The table and column a key names. */
  function SplitColumnKey(key: string, tables: seq<JoinTable>): Option<(nat, string)> {
    match Qualified(key)
    case None => None
    case Some((alias, column)) =>
      match Resolve(tables, alias)
      case None => None
      case Some(join) => Some((join, column))
  }

  // ---- The two agree ----

  lemma AliasIndex(tables: seq<JoinTable>, join: nat)
    requires TablesWF(tables) && join < |tables|
    ensures IndexOf(Aliases(tables), tables[join].Name()) == Some(join)
  {
    IndexOfIs(Aliases(tables), join);
  }

  /** How a qualifier is written: bare, or between quotes with inner quotes doubled. */
  lemma QualifierForms(name: string)
    requires name != ""
    ensures var q := FilterQualifier(name);
            || (q == name && IsBareName(name) && Upper(name) != "NOT")
            || q == Enclosed(name, '"')
  {
    if IsLogicWord(name) {
      NoQuoteDoubled(name, '"');
    }
  }

  lemma {:induction false} NoQuoteDoubled(s: string, q: char)
    requires forall i :: 0 <= i < |s| ==> UpperAscii(s[i]) != q
    requires UpperAscii(q) == q
    ensures Doubled(s, q) == s
  {
    if s != "" {
      assert UpperAscii(s[0]) != q;
      NoQuoteDoubled(s[1..], q);
    }
  }

  lemma QuotedAliasRead(name: string, rest: string)
    requires name != "" && rest != "" && rest[0] == '.'
    ensures var s := Enclosed(name, '"') + rest;
            && s[0] == '"' && QuotedAlias(s) == Some((name, rest))
            && ScanQuoted(s[1..], '"').Some? && ScanQuoted(s[1..], '"').value.0 == name
            && s[ScanQuoted(s[1..], '"').value.1 + 1..] == rest
  {
    var s := Enclosed(name, '"') + rest;
    var d := Doubled(name, '"');
    assert s[1..] == d + ['"'] + rest;
    ScanDoubled(name, '"', rest);
    assert s[|d| + 2..] == rest;
  }

  /** A key built for a column of a join is read by the filter parser as that column of that table. */
  lemma ColumnKeyIsKey(tables: seq<JoinTable>, join: nat, column: string)
    requires TablesWF(tables) && join < |tables| && IsBareName(column)
    ensures IsKey(ColumnKey(tables, join, column), ColumnName(column, Some(join)), Some(Aliases(tables)))
  {
    var name, key := tables[join].Name(), ColumnKey(tables, join, column);
    QualifierForms(name);
    forall rest | rest != "" && Ends(rest)
      ensures Column(key + rest, Some(Aliases(tables))) == Some((ColumnName(column, Some(join)), rest))
      ensures !KeywordAt("NOT", key + rest)
    {
      var after := column + rest;
      var q := FilterQualifier(name);
      assert key + rest == q + ("." + after);
      FilterCompose.NameRead(column, rest);
      AliasIndex(tables, join);
      QualifierRead(q, name, after);
      assert ("." + after)[1..] == after;
      QualifiedColumn(key + rest, Aliases(tables), name, after, column, rest, join);
    }
  }

  lemma QualifierRead(q: string, name: string, after: string)
    requires name != ""
    requires (q == name && IsBareName(name) && Upper(name) != "NOT") || q == Enclosed(name, '"')
    ensures var s := q + ("." + after);
            && (if StartsWith(s, '"') then QuotedAlias(s) else Name(s)) == Some((name, "." + after))
            && !KeywordAt("NOT", s)
  {
    var s := q + ("." + after);
    if q == name && IsBareName(name) && Upper(name) != "NOT" {
      FilterCompose.NameRead(name, "." + after);
      NotSpelled(name, "." + after);
      assert s[0] == name[0];
    } else {
      QuotedAliasRead(name, "." + after);
      assert UpperAscii(s[0]) != "NOT"[0];
    }
  }

  /** Splitting a key gives back the table position and the column, whatever the column contains. */
  lemma SplitInvertsKey(tables: seq<JoinTable>, join: nat, column: string)
    requires TablesWF(tables) && join < |tables| && column != ""
    ensures SplitColumnKey(ColumnKey(tables, join, column), tables) == Some((join, column))
  {
    var name := tables[join].Name();
    var q, rest := FilterQualifier(name), "." + column;
    var key := ColumnKey(tables, join, column);
    QualifierForms(name);
    ResolveName(tables, join);
    assert key == q + rest;
    assert rest[1..] == column;
    if q == Enclosed(name, '"') {
      QuotedAliasRead(name, rest);
    } else {
      FilterCompose.NameRead(name, rest);
      assert key[0] == name[0];
    }
  }
}

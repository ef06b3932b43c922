/** Suggestions for a mistyped name: the edit-distance table, and the closest candidate. */
module EditDistance {
  import opened Outcomes

  // ---- What the distance means ----

  /** One step of turning a name into another. */
  datatype Edit = Keep(c: char) | Replace(from: char, to: char) | Insert(c: char) | Delete(c: char)

  function EditCost(e: Edit): nat {
    if e.Keep? then 0 else 1
  }

  /** What an edit takes from the first name, and what it puts in the second. */
  function EditReads(e: Edit): string {
    match e
    case Keep(c) => [c]
    case Replace(from, _) => [from]
    case Insert(_) => ""
    case Delete(c) => [c]
  }

  function EditWrites(e: Edit): string {
    match e
    case Keep(c) => [c]
    case Replace(_, to) => [to]
    case Insert(c) => [c]
    case Delete(_) => ""
  }

  function Cost(script: seq<Edit>): nat {
    if script == [] then 0 else Cost(script[..|script| - 1]) + EditCost(script[|script| - 1])
  }

  function Reads(script: seq<Edit>): string {
    if script == [] then "" else Reads(script[..|script| - 1]) + EditReads(script[|script| - 1])
  }

  function Writes(script: seq<Edit>): string {
    if script == [] then "" else Writes(script[..|script| - 1]) + EditWrites(script[|script| - 1])
  }

  predicate Turns(script: seq<Edit>, a: string, b: string) {
    Reads(script) == a && Writes(script) == b
  }

  // ---- What the table holds ----

  function Min(a: nat, b: nat): nat {
    if a <= b then a else b
  }

  /** The distance from the first `i` characters of `a` to the first `j` of `b`. */
  function Cell(a: string, b: string, i: nat, j: nat): nat
    requires i <= |a| && j <= |b|
    decreases i + j
  {
    if i == 0 then j
    else if j == 0 then i
    else
      Min(
        Min(Cell(a, b, i - 1, j) + 1, Cell(a, b, i, j - 1) + 1),
        Cell(a, b, i - 1, j - 1) + if a[i - 1] == b[j - 1] then 0 else 1)
  }

  function Distance(a: string, b: string): nat {
    Cell(a, b, |a|, |b|)
  }

  lemma OneMore(script: seq<Edit>, e: Edit, a: string, b: string)
    requires Turns(script, a, b)
    ensures Turns(script + [e], a + EditReads(e), b + EditWrites(e)) && Cost(script + [e]) == Cost(script) + EditCost(e)
  {
    assert (script + [e])[..|script|] == script;
  }

  /** `e` leads from the first `i0` and `j0` characters to the first `i` and `j`. */
  predicate Leads(a: string, b: string, i0: nat, j0: nat, e: Edit, i: nat, j: nat) {
    && i0 <= i <= |a| && j0 <= j <= |b|
    && a[..i] == a[..i0] + EditReads(e) && b[..j] == b[..j0] + EditWrites(e)
  }

  /** The last edit of a cheapest script, and how far the edits before it lead. */
  lemma LastEdit(a: string, b: string, i: nat, j: nat) returns (e: Edit, i0: nat, j0: nat)
    requires i <= |a| && j <= |b| && (i > 0 || j > 0)
    ensures Leads(a, b, i0, j0, e, i, j) && i0 + j0 < i + j
    ensures Cell(a, b, i, j) == Cell(a, b, i0, j0) + EditCost(e)
  {
    if i == 0 || (j > 0 && Cell(a, b, i, j) == Cell(a, b, i, j - 1) + 1) {
      e, i0, j0 := Insert(b[j - 1]), i, j - 1;
    } else if j == 0 || Cell(a, b, i, j) == Cell(a, b, i - 1, j) + 1 {
      e, i0, j0 := Delete(a[i - 1]), i - 1, j;
    } else {
      e := if a[i - 1] == b[j - 1] then Keep(a[i - 1]) else Replace(a[i - 1], b[j - 1]);
      i0, j0 := i - 1, j - 1;
    }
  }

  /** Some script costs no more than the distance. */
  lemma {:induction false} BestScript(a: string, b: string, i: nat, j: nat) returns (script: seq<Edit>)
    requires i <= |a| && j <= |b|
    ensures Turns(script, a[..i], b[..j]) && Cost(script) == Cell(a, b, i, j)
    decreases i + j
  {
    script := [];
    if i > 0 || j > 0 {
      var e, i0, j0 := LastEdit(a, b, i, j);
      var s := BestScript(a, b, i0, j0);
      OneMore(s, e, a[..i0], b[..j0]);
      script := s + [e];
    }
  }

  /** An edit adds no more to the distance than it costs. */
  lemma StepBound(a: string, b: string, i0: nat, j0: nat, e: Edit, i: nat, j: nat)
    requires Leads(a, b, i0, j0, e, i, j)
    ensures Cell(a, b, i, j) <= Cell(a, b, i0, j0) + EditCost(e)
  {
    assert |a[..i]| == i && |b[..j]| == j;
    if e.Keep? || e.Replace? {
      assert a[..i][i - 1] == a[i - 1] && b[..j][j - 1] == b[j - 1];
    }
  }

  /** No script costs less. */
  lemma {:induction false} NoCheaperScript(script: seq<Edit>, a: string, b: string, i: nat, j: nat)
    requires i <= |a| && j <= |b| && Turns(script, a[..i], b[..j])
    ensures Cell(a, b, i, j) <= Cost(script)
  {
    if script != [] {
      var s, e := script[..|script| - 1], script[|script| - 1];
      var i0, j0 := |Reads(s)|, |Writes(s)|;
      assert |a[..i]| == i0 + |EditReads(e)| && |b[..j]| == j0 + |EditWrites(e)|;
      assert a[..i][..i0] == Reads(s) && b[..j][..j0] == Writes(s);
      assert a[..i][..i0] == a[..i0] && b[..j][..j0] == b[..j0];
      NoCheaperScript(s, a, b, i0, j0);
      StepBound(a, b, i0, j0, e, i, j);
    }
  }

  /** The distance is the least number of insertions, deletions and replacements. */
  lemma DistanceIsLeast(a: string, b: string)
    ensures exists script :: Turns(script, a, b) && Cost(script) == Distance(a, b)
    ensures forall script :: Turns(script, a, b) ==> Distance(a, b) <= Cost(script)
  {
    assert a[..|a|] == a && b[..|b|] == b;
    var script := BestScript(a, b, |a|, |b|);
    forall script | Turns(script, a, b)
      ensures Distance(a, b) <= Cost(script)
    {
      NoCheaperScript(script, a, b, |a|, |b|);
    }
  }

  // ---- The two rows ----

  /** The first cells of row `i` of the table. */
  ghost predicate IsRow(row: array<nat>, a: string, b: string, i: nat, upTo: nat)
    reads row
    requires i <= |a| && upTo <= row.Length == |b| + 1
  {
    forall j :: 0 <= j < upTo ==> row[j] == Cell(a, b, i, j)
  }

  method FirstRow(a: string, b: string) returns (row: array<nat>)
    ensures row.Length == |b| + 1 && IsRow(row, a, b, 0, |b| + 1)
  {
    row := new nat[|b| + 1];
    for j := 0 to |b| + 1
      invariant forall k :: 0 <= k < j ==> row[k] == k
    {
      row[j] := j;
    }
  }

  method NextCell(prev: array<nat>, row: array<nat>, a: string, b: string, i: nat, j: nat)
    requires 0 < i <= |a| && 0 < j <= |b| && prev.Length == row.Length == |b| + 1 && prev != row
    requires IsRow(prev, a, b, i - 1, |b| + 1) && IsRow(row, a, b, i, j)
    modifies row
    ensures IsRow(row, a, b, i, j + 1)
  {
    var value := Min(Min(prev[j] + 1, row[j - 1] + 1), prev[j - 1] + if a[i - 1] == b[j - 1] then 0 else 1);
    assert value == Cell(a, b, i, j);
    row[j] := value;
  }

  method NextRow(prev: array<nat>, a: string, b: string, i: nat) returns (row: array<nat>)
    requires 0 < i <= |a| && prev.Length == |b| + 1 && IsRow(prev, a, b, i - 1, |b| + 1)
    ensures fresh(row) && row.Length == |b| + 1 && IsRow(row, a, b, i, |b| + 1)
  {
    row := new nat[|b| + 1];
    row[0] := i;
    for j := 1 to |b| + 1
      invariant IsRow(row, a, b, i, j) && IsRow(prev, a, b, i - 1, |b| + 1)
    {
      NextCell(prev, row, a, b, i, j);
    }
  }

  method Levenshtein(a: string, b: string) returns (distance: nat)
    ensures distance == Distance(a, b)
  {
    var prev := FirstRow(a, b);
    for i := 1 to |a| + 1
      invariant prev.Length == |b| + 1 && IsRow(prev, a, b, i - 1, |b| + 1)
    {
      prev := NextRow(prev, a, b, i);
    }
    return prev[|b|];
  }

  // ---- The closest candidate ----

  /** The furthest a suggestion may be. */
  const MAX_DISTANCE := 2

  /** `k` is the first of the candidates at the least distance. */
  ghost predicate IsClosest(name: string, candidates: seq<string>, k: nat) {
    && k < |candidates|
    && (forall j :: 0 <= j < |candidates| ==> Distance(name, candidates[k]) <= Distance(name, candidates[j]))
    && (forall j :: 0 <= j < k ==> Distance(name, candidates[k]) < Distance(name, candidates[j]))
  }

  method Closest(name: string, candidates: seq<string>) returns (best: Option<string>)
    ensures best.Some? <==> exists j :: 0 <= j < |candidates| && Distance(name, candidates[j]) <= MAX_DISTANCE
    ensures best.Some? ==> exists k: nat :: IsClosest(name, candidates, k) && candidates[k] == best.value
  {
    best := None;
    var bestDistance := MAX_DISTANCE + 1;
    ghost var at := 0;
    for i := 0 to |candidates|
      invariant bestDistance <= MAX_DISTANCE + 1 && (best.Some? <==> bestDistance <= MAX_DISTANCE)
      invariant forall j :: 0 <= j < i ==> bestDistance <= Distance(name, candidates[j])
      invariant best.Some? ==>
                  && at < i && candidates[at] == best.value && bestDistance == Distance(name, candidates[at])
                  && forall j :: 0 <= j < at ==> bestDistance < Distance(name, candidates[j])
    {
      var d := Levenshtein(name, candidates[i]);
      if d < bestDistance {
        best := Some(candidates[i]);
        bestDistance := d;
        at := i;
      }
    }
    if best.Some? {
      assert IsClosest(name, candidates, at);
      assert Distance(name, candidates[at]) <= MAX_DISTANCE;
    }
  }
}

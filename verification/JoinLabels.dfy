/** Response labels of the columns a join returns. */
module JoinLabels {
  import opened Outcomes
  import opened Numbers
  import opened Text

  /** How often `name` occurs. */
  function Count(names: seq<string>, name: string): nat {
    if names == [] then 0 else Count(names[..|names| - 1], name) + if names[|names| - 1] == name then 1 else 0
  }

  /** A name that occurs once keeps itself as its label. */
  predicate IsUnique(names: seq<string>, i: nat)
    requires i < |names|
  {
    Count(names, names[i]) == 1
  }

  lemma {:induction false} CountAt(names: seq<string>, i: nat)
    requires i < |names|
    ensures Count(names, names[i]) > 0
  {
    if i < |names| - 1 {
      CountAt(names[..|names| - 1], i);
    }
  }

  lemma {:induction false} CountTwice(names: seq<string>, i: nat, j: nat)
    requires i < j < |names| && names[i] == names[j]
    ensures Count(names, names[i]) > 1
  {
    if j < |names| - 1 {
      CountTwice(names[..|names| - 1], i, j);
    } else {
      CountAt(names[..|names| - 1], i);
    }
  }

  /** The names that are taken before any label is made. */
  function UniqueNames(names: seq<string>): set<string> {
    set i | 0 <= i < |names| && IsUnique(names, i) :: names[i]
  }

  function Base(name: string, join: nat): string {
    name + "_" + Decimal(join)
  }

  function Suffixed(base: string, k: nat): string {
    base + "_" + Decimal(k)
  }

  /** Suffixes tell labels on one base apart. */
  lemma SuffixedInjective(base: string, j: nat, k: nat)
    requires Suffixed(base, j) == Suffixed(base, k)
    ensures j == k
  {
    assert Suffixed(base, j)[|base| + 1..] == Decimal(j);
    assert Suffixed(base, k)[|base| + 1..] == Decimal(k);
    DecimalInjective(j, k);
  }

  /** The labels with a suffix from `k` on that are taken. */
  ghost function Taken(base: string, k: nat, used: set<string>): set<string> {
    set u | u in used && exists j: nat :: k <= j && u == Suffixed(base, j)
  }

  /** A taken label is one less to meet: the search for a free one ends. */
  lemma TakenShrinks(base: string, k: nat, used: set<string>)
    requires Suffixed(base, k) in used
    ensures Taken(base, k + 1, used) < Taken(base, k, used)
  {
    var made := Suffixed(base, k);
    assert made in Taken(base, k, used);
    if made in Taken(base, k + 1, used) {
      var j: nat :| k + 1 <= j && made == Suffixed(base, j);
      SuffixedInjective(base, j, k);
    }
  }

  /** The first free suffix from `k` on. */
  function FreeSuffix(base: string, k: nat, used: set<string>): (r: nat)
    ensures k <= r && Suffixed(base, r) !in used
    ensures forall j :: k <= j < r ==> Suffixed(base, j) in used
    decreases Taken(base, k, used)
  {
    if Suffixed(base, k) !in used then k
    else
      assert Taken(base, k + 1, used) < Taken(base, k, used) by { TakenShrinks(base, k, used); }
      FreeSuffix(base, k + 1, used)
  }

  /** The label made for a repeated name. */
  function Made(name: string, join: nat, used: set<string>): (made: string)
    ensures made !in used
  {
    var base := Base(name, join);
    if base !in used then base else Suffixed(base, FreeSuffix(base, 2, used))
  }

  /** The labels of the columns from `i` on, `used` being taken. */
  function LabelsFrom(names: seq<string>, joins: seq<nat>, i: nat, used: set<string>): (labels: seq<string>)
    requires |joins| == |names| && i <= |names|
    ensures |labels| == |names| - i
    decreases |names| - i
  {
    if i == |names| then []
    else if IsUnique(names, i) then [names[i]] + LabelsFrom(names, joins, i + 1, used)
    else
      var made := Made(names[i], joins[i], used);
      [made] + LabelsFrom(names, joins, i + 1, used + {made})
  }

  function Labels(names: seq<string>, joins: seq<nat>): (labels: seq<string>)
    requires |joins| == |names|
    ensures |labels| == |names|
  {
    LabelsFrom(names, joins, 0, UniqueNames(names))
  }

  // ---- What the labels are good for ----

  ghost predicate Distinct(labels: seq<string>) {
    forall i, j :: 0 <= i < j < |labels| ==> labels[i] != labels[j]
  }

  /** Whether `made` names column `i`: its own name if unique, otherwise the name with its position, or that with a suffix. */
  ghost predicate LabelFor(made: string, names: seq<string>, joins: seq<nat>, i: nat)
    requires |joins| == |names| && i < |names|
  {
    if IsUnique(names, i) then made == names[i]
    else made == Base(names[i], joins[i]) || exists k: nat :: k >= 2 && made == Suffixed(Base(names[i], joins[i]), k)
  }

  lemma {:induction false} LabelsFromDistinct(names: seq<string>, joins: seq<nat>, i: nat, used: set<string>)
    requires |joins| == |names| && i <= |names| && UniqueNames(names) <= used
    ensures var labels := LabelsFrom(names, joins, i, used);
            && Distinct(labels)
            && (forall k :: 0 <= k < |labels| ==> LabelFor(labels[k], names, joins, i + k))
            && (forall k :: 0 <= k < |labels| && !IsUnique(names, i + k) ==> labels[k] !in used)
    decreases |names| - i
  {
    if i < |names| {
      var labels := LabelsFrom(names, joins, i, used);
      if IsUnique(names, i) {
        LabelsFromDistinct(names, joins, i + 1, used);
        var rest := LabelsFrom(names, joins, i + 1, used);
        assert labels == [names[i]] + rest;
        forall k | 0 <= k < |rest|
          ensures rest[k] != names[i]
        {
          if IsUnique(names, i + 1 + k) && rest[k] == names[i] {
            CountTwice(names, i, i + 1 + k);
          }
          assert names[i] in used;
        }
      } else {
        var made := Made(names[i], joins[i], used);
        LabelsFromDistinct(names, joins, i + 1, used + {made});
        var rest := LabelsFrom(names, joins, i + 1, used + {made});
        assert labels == [made] + rest;
        forall k | 0 <= k < |rest|
          ensures rest[k] != made
        {
          if IsUnique(names, i + 1 + k) {
            assert rest[k] in UniqueNames(names);
          }
        }
      }
    }
  }

  /** Labels never collide, whatever the names look like, and a name that occurs once is its own label. */
  lemma LabelsDistinct(names: seq<string>, joins: seq<nat>)
    requires |joins| == |names|
    ensures Distinct(Labels(names, joins))
    ensures forall i :: 0 <= i < |names| ==> LabelFor(Labels(names, joins)[i], names, joins, i)
  {
    LabelsFromDistinct(names, joins, 0, UniqueNames(names));
  }

  // ---- The loops ----

  ghost predicate Counts(counts: map<string, nat>, names: seq<string>) {
    && (forall n :: n in counts ==> counts[n] == Count(names, n))
    && (forall n :: n in names ==> n in counts)
  }

  method CountNames(names: seq<string>) returns (counts: map<string, nat>)
    ensures Counts(counts, names)
  {
    counts := map[];
    for i := 0 to |names|
      invariant Counts(counts, names[..i])
      invariant forall n :: n !in counts ==> Count(names[..i], n) == 0
    {
      var n := names[i];
      assert names[..i + 1][..i] == names[..i];
      counts := counts[n := (if n in counts then counts[n] else 0) + 1];
    }
    assert names[..|names|] == names;
  }

  /** The loop that moves past taken labels. */
  method FindLabel(name: string, join: nat, used: set<string>) returns (made: string)
    ensures made == Made(name, join, used)
  {
    var base := Base(name, join);
    made := base;
    if made in used {
      var k := 2;
      made := Suffixed(base, k);
      while made in used
        invariant made == Suffixed(base, k) && FreeSuffix(base, k, used) == FreeSuffix(base, 2, used)
        decreases Taken(base, k, used)
      {
        TakenShrinks(base, k, used);
        k := k + 1;
        made := Suffixed(base, k);
      }
    }
  }

  method CollectUnique(names: seq<string>, counts: map<string, nat>) returns (used: set<string>)
    requires Counts(counts, names)
    ensures used == UniqueNames(names)
  {
    used := {};
    for i := 0 to |names|
      invariant used == set k | 0 <= k < i && IsUnique(names, k) :: names[k]
    {
      if counts[names[i]] == 1 {
        used := used + {names[i]};
      }
    }
  }

  /** One column's label and what is taken after it. */
  method NextLabel(names: seq<string>, joins: seq<nat>, counts: map<string, nat>, i: nat, used: set<string>)
    returns (made: string, taken: set<string>)
    requires |joins| == |names| && i < |names| && Counts(counts, names)
    ensures LabelsFrom(names, joins, i, used) == [made] + LabelsFrom(names, joins, i + 1, taken)
  {
    if counts[names[i]] == 1 {
      return names[i], used;
    }
    made := FindLabel(names[i], joins[i], used);
    taken := used + {made};
  }

  method AssignJoinLabels(names: seq<string>, joins: seq<nat>) returns (labels: array<string>)
    requires |joins| == |names|
    ensures fresh(labels)
    ensures labels[..] == Labels(names, joins)
    ensures Distinct(labels[..])
    ensures forall i :: 0 <= i < |names| ==> LabelFor(labels[..][i], names, joins, i)
  {
    var counts := CountNames(names);
    var used := CollectUnique(names, counts);
    ghost var all := Labels(names, joins);
    labels := new string[|names|];
    for i := 0 to |names|
      invariant labels[..i] + LabelsFrom(names, joins, i, used) == all
    {
      ghost var later := LabelsFrom(names, joins, i, used);
      labels[i], used := NextLabel(names, joins, counts, i, used);
      assert labels[..i + 1] == labels[..i] + [labels[i]];
      ConcatAssoc(labels[..i], [labels[i]], LabelsFrom(names, joins, i + 1, used));
    }
    assert labels[..] == labels[..|names|] + [];
    LabelsDistinct(names, joins);
  }
}

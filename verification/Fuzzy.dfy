/** Scoring a query against a text by greedy placement with lookahead: sound and complete for subsequences. */
module Fuzzy {
  import opened Outcomes

  predicate IsBoundary(c: char) {
    c == '_' || c == '-' || c == '.' || c == ' '
  }

  /** The first occurrence of `c` from `from` on. */
  function IndexOf(t: string, c: char, from: nat): (r: Option<nat>)
    ensures r.Some? ==> from <= r.value < |t| && t[r.value] == c && forall i :: from <= i < r.value ==> t[i] != c
    ensures r.None? ==> forall i :: from <= i < |t| ==> t[i] != c
    decreases |t| - from
  {
    if from >= |t| then None else if t[from] == c then Some(from) else IndexOf(t, c, from + 1)
  }

  // ---- What a match is ----

  /** `at` are places in `t`, from `from` on and each after the one before, that spell `q`. */
  ghost predicate Embeds(at: seq<nat>, q: string, t: string, from: nat) {
    && |at| == |q|
    && (forall i :: 0 <= i < |at| ==> from <= at[i] < |t| && t[at[i]] == q[i])
    && (forall i, j :: 0 <= i < j < |at| ==> at[i] < at[j])
  }

  /** Whether `q` is a subsequence of `t` from `from` on. */
  ghost predicate IsSubsequence(q: string, t: string, from: nat) {
    exists at :: Embeds(at, q, t, from)
  }

  lemma EmptyMatches(t: string, from: nat)
    ensures IsSubsequence("", t, from)
  {
    assert Embeds([], "", t, from);
  }

  /** A place for the first character and one for the rest after it. */
  lemma MatchesFrom(q: string, t: string, from: nat, p: nat)
    requires q != "" && from <= p < |t| && t[p] == q[0] && IsSubsequence(q[1..], t, p + 1)
    ensures IsSubsequence(q, t, from)
  {
    var rest :| Embeds(rest, q[1..], t, p + 1);
    assert Embeds([p] + rest, q, t, from);
  }

  /** Taking the first occurrence loses no match. */
  lemma FirstIsBest(q: string, t: string, from: nat)
    requires q != "" && IsSubsequence(q, t, from)
    ensures IndexOf(t, q[0], from).Some? && IsSubsequence(q[1..], t, IndexOf(t, q[0], from).value + 1)
  {
    var at :| Embeds(at, q, t, from);
    assert t[at[0]] == q[0];
    var first := IndexOf(t, q[0], from).value;
    assert forall i :: 0 < i < |at| ==> at[0] < at[i];
    assert Embeds(at[1..], q[1..], t, first + 1);
  }

  // ---- Looking ahead ----

  /** Whether the rest of the query can still be placed; the loop takes first occurrences. */
  method Fits(rest: string, t: string, start: nat) returns (fits: bool)
    ensures fits == IsSubsequence(rest, t, start)
  {
    var from := start;
    for k := 0 to |rest|
      invariant IsSubsequence(rest, t, start) == IsSubsequence(rest[k..], t, from)
    {
      var at := IndexOf(t, rest[k], from);
      assert rest[k..][1..] == rest[k + 1..];
      if IsSubsequence(rest[k..], t, from) {
        FirstIsBest(rest[k..], t, from);
      }
      if at.None? {
        return false;
      }
      if IsSubsequence(rest[k + 1..], t, at.value + 1) {
        MatchesFrom(rest[k..], t, from, at.value);
      }
      from := at.value + 1;
    }
    assert rest[|rest|..] == "";
    EmptyMatches(t, from);
    return true;
  }

  /** `i` starts a word with `c` and leaves room for `rest`. */
  ghost predicate Roomy(t: string, c: char, rest: string, i: nat) {
    i < |t| && t[i] == c && (i == 0 || IsBoundary(t[i - 1])) && IsSubsequence(rest, t, i + 1)
  }

  /**
   * The place taken for `c`: `from` itself, or the first Roomy one after it, or
   * any first occurrence. The rest can be placed after it if `c` and the rest
   * could be placed at all.
   */
  method Place(t: string, c: char, from: nat, rest: string) returns (at: Option<nat>)
    ensures at.Some? ==> from <= at.value < |t| && t[at.value] == c
    ensures IsSubsequence([c] + rest, t, from) <==> at.Some? && IsSubsequence(rest, t, at.value + 1)
    ensures from < |t| && t[from] == c ==> at == Some(from)
    ensures !(from < |t| && t[from] == c) ==>
              if exists i: nat :: from <= i && Roomy(t, c, rest, i) then
                at.Some? && Roomy(t, c, rest, at.value) && forall j :: from <= j < at.value ==> !Roomy(t, c, rest, j)
              else at == IndexOf(t, c, from)
  {
    ghost var q := [c] + rest;
    assert q[1..] == rest && q[0] == c;
    if IsSubsequence(q, t, from) {
      FirstIsBest(q, t, from);
    }
    if from < |t| && t[from] == c {
      at := Some(from);
      if IsSubsequence(rest, t, from + 1) {
        MatchesFrom(q, t, from, from);
      }
      return;
    }
    var i := from;
    while i < |t|
      invariant from <= i
      invariant forall j :: from <= j < i ==> !Roomy(t, c, rest, j)
    {
      if t[i] == c && (i == 0 || IsBoundary(t[i - 1])) {
        var room := Fits(rest, t, i + 1);
        if room {
          MatchesFrom(q, t, from, i);
          assert Roomy(t, c, rest, i);
          return Some(i);
        }
      }
      i := i + 1;
    }
    at := IndexOf(t, c, from);
    if at.Some? && IsSubsequence(rest, t, at.value + 1) {
      MatchesFrom(q, t, from, at.value);
    }
  }

  // ---- The score ----

  /** What placing a character at `p`, the one before at `prev`, is worth. */
  function Points(t: string, p: nat, prev: int): nat
    requires p < |t|
  {
    (if p == 0 then 8 else if IsBoundary(t[p - 1]) then 6 else 0) + (if p == prev + 1 then 4 else 0) + 1
  }

  predicate Within(at: seq<nat>, t: string) {
    forall i :: 0 <= i < |at| ==> at[i] < |t|
  }

  /** The worth of a whole placement. */
  function Total(t: string, at: seq<nat>): nat
    requires Within(at, t)
  {
    if at == [] then 0
    else
      var n := |at| - 1;
      Total(t, at[..n]) + Points(t, at[n], if n == 0 then -2 else at[n - 1])
  }

  /** The score after placing a character at `p`, the one before at `prev`. */
  method Score(t: string, p: nat, prev: int, score: nat) returns (total: nat)
    requires p < |t|
    ensures total == score + Points(t, p, prev)
  {
    total := score;
    if p == 0 {
      total := total + 8;
    } else if IsBoundary(t[p - 1]) {
      total := total + 6;
    }
    if p == prev + 1 {
      total := total + 4;
    }
    total := total + 1;
  }

  lemma EmbedMore(at: seq<nat>, q: string, t: string, p: nat)
    requires |at| < |q| && Embeds(at, q[..|at|], t, 0)
    requires p < |t| && t[p] == q[|at|] && (at != [] ==> at[|at| - 1] < p)
    ensures Embeds(at + [p], q[..|at| + 1], t, 0)
  {
    var all, k := at + [p], |at|;
    forall i | 0 <= i < |all|
      ensures all[i] < |t| && t[all[i]] == q[..k + 1][i]
    {
      assert i < k ==> t[at[i]] == q[..k][i];
    }
    forall i, j | 0 <= i < j < |all|
      ensures all[i] < all[j]
    {
      assert i < k - 1 ==> at[i] < at[k - 1];
      assert j < k ==> at[i] < at[j];
    }
  }

  lemma TotalMore(at: seq<nat>, t: string, p: nat)
    requires Within(at, t) && p < |t|
    ensures Within(at + [p], t)
    ensures Total(t, at + [p]) == Total(t, at) + Points(t, p, if at == [] then -2 else at[|at| - 1])
  {
    assert (at + [p])[..|at|] == at;
  }

  /** After the first `k` characters of the query: where the next one may go, where the last one went, and the score. */
  ghost predicate Placed(at: seq<nat>, q: string, t: string, k: nat, from: nat, prev: int, total: nat) {
    && k <= |q| && Embeds(at, q[..k], t, 0) && Within(at, t) && total == Total(t, at)
    && (k == 0 ==> from == 0 && prev == -2) && (k > 0 ==> prev == at[k - 1] && from == prev + 1)
  }

  lemma PlacedMore(at: seq<nat>, q: string, t: string, k: nat, from: nat, prev: int, total: nat, p: nat)
    requires Placed(at, q, t, k, from, prev, total) && k < |q| && from <= p < |t| && t[p] == q[k]
    ensures Placed(at + [p], q, t, k + 1, p + 1, p, total + Points(t, p, prev))
  {
    EmbedMore(at, q, t, p);
    TotalMore(at, t, p);
  }

  /** Places character `k` of the query. */
  method PlaceAt(t: string, q: string, k: nat, from: nat) returns (at: Option<nat>)
    requires k < |q|
    ensures at.Some? ==> from <= at.value < |t| && t[at.value] == q[k]
    ensures IsSubsequence(q[k..], t, from) <==> at.Some? && IsSubsequence(q[k + 1..], t, at.value + 1)
  {
    assert [q[k]] + q[k + 1..] == q[k..];
    at := Place(t, q[k], from, q[k + 1..]);
  }

  /**
   * Some exactly for a subsequence, both sides lower-cased; the value is
   * a hundred times the Total of some embedding, less the length of the text.
   */
  method FuzzyScore(query: string, text: string, toLower: string -> string) returns (score: Option<int>)
    ensures score.Some? <==> IsSubsequence(toLower(query), toLower(text), 0)
    ensures score.Some? && toLower(query) != "" ==>
              exists at :: Embeds(at, toLower(query), toLower(text), 0)
                           && score.value == Total(toLower(text), at) * 100 - |toLower(text)|
    ensures toLower(query) == "" ==> score == Some(0)
  {
    var q, t := toLower(query), toLower(text);
    if q == "" {
      EmptyMatches(t, 0);
      return Some(0);
    }
    ghost var at;
    score, at := ScoreLowered(q, t);
  }

  method ScoreLowered(q: string, t: string) returns (score: Option<int>, ghost at: seq<nat>)
    requires q != ""
    ensures score.Some? <==> IsSubsequence(q, t, 0)
    ensures score.Some? ==> Embeds(at, q, t, 0) && score.value == Total(t, at) * 100 - |t|
  {
    var total: nat := 0;
    var from: nat, prev: int := 0, -2;
    ghost var answer := IsSubsequence(q, t, 0);
    at := [];
    assert q[0..] == q;
    for k := 0 to |q|
      invariant Placed(at, q, t, k, from, prev, total)
      invariant answer == IsSubsequence(q[k..], t, from)
    {
      var p := PlaceAt(t, q, k, from);
      if p.None? {
        return None, at;
      }
      PlacedMore(at, q, t, k, from, prev, total, p.value);
      total := Score(t, p.value, prev, total);
      at := at + [p.value];
      prev := p.value;
      from := p.value + 1;
    }
    assert q[|q|..] == "" && q[..|q|] == q;
    EmptyMatches(t, from);
    return Some(total * 100 - |t|), at;
  }
}

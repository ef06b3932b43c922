/** Three edits of a draft: well-formedness is kept, and a reference left standing names what it named. */
module JoinDraftEdits {
  import opened Outcomes
  import opened JoinTypes
  import opened JoinDraft

  // ---- A well-formed draft ----

  /** Every pair points to a table before the one its join adds. */
  ghost predicate PairsPoint(joins: seq<DraftJoin>) {
    forall i, k :: 0 <= i < |joins| && 0 <= k < |joins[i].on| ==> joins[i].on[k].leftJoin <= i
  }

  ghost predicate OrderInRange(order: seq<JoinColumn>, tables: nat) {
    forall i :: 0 <= i < |order| ==> order[i].join < tables
  }

  ghost predicate DraftWF(d: Draft) {
    && |d.columns| == |d.joins| + 1 && PairsPoint(d.joins)
    && (d.order.Some? ==> OrderInRange(d.order.value, |d.joins| + 1))
  }

  // ---- Edits ----

  const NEW_JOIN := DraftJoin(InnerJoin, "", "", [EMPTY_PAIR])

  function AddJoin(d: Draft): Draft {
    d.(joins := d.joins + [NEW_JOIN], columns := d.columns + [None])
  }

  function NewDraft(table: string): Draft {
    AddJoin(Draft(table, "", [], [None], None))
  }

  function Without<T>(s: seq<T>, i: nat): (r: seq<T>)
    requires i < |s|
    ensures |r| == |s| - 1
    ensures forall k :: 0 <= k < i ==> r[k] == s[k]
    ensures forall k :: i < k < |s| ==> r[k - 1] == s[k]
  {
    s[..i] + s[i + 1..]
  }

  /** Where position `p` goes when table `gone` is removed. */
  function Shifted(p: nat, gone: nat): nat
    requires p != gone
  {
    if p > gone then p - 1 else p
  }

  function ShiftedPair(p: DraftPair, gone: nat): DraftPair {
    if p.leftJoin == gone then p.(leftJoin := 0, leftColumn := "") else p.(leftJoin := Shifted(p.leftJoin, gone))
  }

  function ShiftedPairs(on: seq<DraftPair>, gone: nat): (r: seq<DraftPair>)
    ensures |r| == |on| && forall i :: 0 <= i < |r| ==> r[i] == ShiftedPair(on[i], gone)
  {
    seq(|on|, i requires 0 <= i < |on| => ShiftedPair(on[i], gone))
  }

  /** The joins with the pairs of those from `from` on shifted. */
  function ShiftedJoins(joins: seq<DraftJoin>, from: nat, gone: nat): (r: seq<DraftJoin>)
    ensures |r| == |joins|
    ensures forall i :: 0 <= i < |r| ==>
              r[i] == if i < from then joins[i] else joins[i].(on := ShiftedPairs(joins[i].on, gone))
  {
    seq(|joins|, i requires 0 <= i < |joins| =>
      if i < from then joins[i] else joins[i].(on := ShiftedPairs(joins[i].on, gone)))
  }

  /** The items of tables other than `gone`. */
  function DropItems(order: seq<JoinColumn>, gone: nat): (r: seq<JoinColumn>)
    ensures forall i :: 0 <= i < |r| ==> r[i].join != gone && r[i] in order
  {
    if order == [] then []
    else (if order[0].join != gone then [order[0]] else []) + DropItems(order[1..], gone)
  }

  function ShiftItems(order: seq<JoinColumn>, gone: nat): (r: seq<JoinColumn>)
    requires forall i :: 0 <= i < |order| ==> order[i].join != gone
    ensures |r| == |order| && forall i :: 0 <= i < |r| ==> r[i] == order[i].(join := Shifted(order[i].join, gone))
  {
    seq(|order|, i requires 0 <= i < |order| => order[i].(join := Shifted(order[i].join, gone)))
  }

  function RemoveJoin(d: Draft, index: nat): Draft
    requires index < |d.joins| && |d.columns| == |d.joins| + 1
  {
    var gone := index + 1;
    Draft(
      d.table, d.alias, ShiftedJoins(Without(d.joins, index), index, gone), Without(d.columns, gone),
      if d.order.Some? then Some(ShiftItems(DropItems(d.order.value, gone), gone)) else None)
  }

  function ForgetColumns(d: Draft, pos: nat): Draft
    requires pos < |d.columns|
  {
    d.(columns := d.columns[pos := None], order := if d.order.Some? then Some(DropItems(d.order.value, pos)) else None)
  }

  function BlankedPair(p: DraftPair, pos: nat): DraftPair {
    if p.leftJoin == pos then p.(leftColumn := "") else p
  }

  function BlankedPairs(on: seq<DraftPair>, pos: nat): (r: seq<DraftPair>)
    ensures |r| == |on| && forall i :: 0 <= i < |r| ==> r[i] == BlankedPair(on[i], pos)
  {
    seq(|on|, i requires 0 <= i < |on| => BlankedPair(on[i], pos))
  }

  /** Join `own` gets one empty pair; after it, a left column of table `pos` becomes empty. */
  function ResetJoins(joins: seq<DraftJoin>, own: nat, pos: nat): (r: seq<DraftJoin>)
    ensures |r| == |joins|
    ensures forall i :: 0 <= i < |r| ==>
              r[i] == if i < own then joins[i]
                      else joins[i].(on := if i == own then [EMPTY_PAIR] else BlankedPairs(joins[i].on, pos))
  {
    seq(|joins|, i requires 0 <= i < |joins| =>
      if i < own then joins[i]
      else joins[i].(on := if i == own then [EMPTY_PAIR] else BlankedPairs(joins[i].on, pos)))
  }

  /** Index of the join whose ON ties table `pos` to an earlier one; 0 where `pos` is 0. */
  function OwnJoin(pos: nat): nat {
    if pos == 0 then 0 else pos - 1
  }

  function PutTable(d: Draft, pos: nat, table: string): Draft
    requires pos <= |d.joins|
  {
    if pos == 0 then d.(table := table) else d.(joins := d.joins[pos - 1 := d.joins[pos - 1].(table := table)])
  }

  function SetTableAt(d: Draft, pos: nat, table: string): Draft
    requires pos <= |d.joins| && |d.columns| == |d.joins| + 1
  {
    var put := PutTable(d, pos, table);
    ForgetColumns(put.(joins := ResetJoins(put.joins, OwnJoin(pos), pos)), pos)
  }

  // ---- What the edits keep ----

  lemma AddJoinKeeps(d: Draft)
    requires DraftWF(d)
    ensures DraftWF(AddJoin(d))
  {
  }

  lemma RemoveJoinKeeps(d: Draft, index: nat)
    requires DraftWF(d) && index < |d.joins|
    ensures DraftWF(RemoveJoin(d, index))
  {
    var d', gone := RemoveJoin(d, index), index + 1;
    forall i, k | 0 <= i < |d'.joins| && 0 <= k < |d'.joins[i].on|
      ensures d'.joins[i].on[k].leftJoin <= i
    {
      if i < index {
        assert d'.joins[i] == d.joins[i];
      } else {
        assert d'.joins[i].on[k] == ShiftedPair(d.joins[i + 1].on[k], gone);
      }
    }
    if d.order.Some? {
      var dropped := DropItems(d.order.value, gone);
      forall i | 0 <= i < |dropped|
        ensures Shifted(dropped[i].join, gone) < |d'.joins| + 1
      {
        assert dropped[i] in d.order.value;
      }
    }
  }

  lemma SetTableAtKeeps(d: Draft, pos: nat, table: string)
    requires DraftWF(d) && pos <= |d.joins|
    ensures DraftWF(SetTableAt(d, pos, table))
  {
    var d' := SetTableAt(d, pos, table);
    var put := PutTable(d, pos, table);
    forall i, k | 0 <= i < |d'.joins| && 0 <= k < |d'.joins[i].on|
      ensures d'.joins[i].on[k].leftJoin <= i
    {
      assert put.joins[i].on == d.joins[i].on;
    }
  }

  /** The table and alias a draft holds for position `p`. */
  function EntryAt(d: Draft, p: nat): (string, string)
    requires p <= |d.joins|
  {
    if p == 0 then (d.table, d.alias) else (d.joins[p - 1].table, d.joins[p - 1].alias)
  }

  /** `p'` says after the edit what `p` said before, the columns of table `gone` apart. */
  ghost predicate SamePair(d: Draft, p: DraftPair, d': Draft, p': DraftPair, gone: nat)
    requires p.leftJoin <= |d.joins| && p'.leftJoin <= |d'.joins|
  {
    && p'.rightColumn == p.rightColumn
    && if p.leftJoin == gone then p' == DraftPair(0, "", p.rightColumn)
       else p'.leftColumn == p.leftColumn && EntryAt(d', p'.leftJoin) == EntryAt(d, p.leftJoin)
  }

  /**
   * After a removal every table left keeps its name and its selection, and every
   * pair left names the column of the table entry it named, or nothing where it
   * named the removed table.
   */
  lemma RemoveJoinNames(d: Draft, index: nat)
    requires DraftWF(d) && index < |d.joins|
    ensures var d', gone := RemoveJoin(d, index), index + 1;
            && |d'.joins| == |d.joins| - 1 && |d'.columns| == |d.columns| - 1
            && (forall p :: 0 <= p <= |d.joins| && p != gone ==>
                  && EntryAt(d', Shifted(p, gone)) == EntryAt(d, p)
                  && d'.columns[Shifted(p, gone)] == d.columns[p])
            && (forall i :: 0 <= i < |d.joins| && i != index ==>
                  && d'.joins[Shifted(i, index)].kind == d.joins[i].kind
                  && |d'.joins[Shifted(i, index)].on| == |d.joins[i].on|)
  {
  }

  lemma RemoveJoinPairs(d: Draft, index: nat, i: nat, k: nat)
    requires DraftWF(d) && index < |d.joins| && i < |d.joins| && i != index && k < |d.joins[i].on|
    ensures var d' := RemoveJoin(d, index);
            && k < |d'.joins[Shifted(i, index)].on|
            && d'.joins[Shifted(i, index)].on[k].leftJoin <= |d'.joins|
            && SamePair(d, d.joins[i].on[k], d', d'.joins[Shifted(i, index)].on[k], index + 1)
  {
    RemoveJoinKeeps(d, index);
    RemoveJoinNames(d, index);
    var gone, p := index + 1, d.joins[i].on[k];
    if i > index {
      assert RemoveJoin(d, index).joins[i - 1].on[k] == ShiftedPair(p, gone);
    }
  }

  /** The select list loses the removed table's items, and every other keeps its place and its column. */
  lemma RemoveJoinOrder(d: Draft, index: nat)
    requires DraftWF(d) && index < |d.joins| && d.order.Some?
    ensures var d', gone := RemoveJoin(d, index), index + 1;
            var left := DropItems(d.order.value, gone);
            && d'.order.Some? && |d'.order.value| == |left|
            && (forall i :: 0 <= i < |left| ==>
                  && d'.order.value[i].join == Shifted(left[i].join, gone)
                  && d'.order.value[i].Whole? == left[i].Whole?
                  && (left[i].Single? ==> d'.order.value[i].column == left[i].column))
            && (forall c :: c in left <==> c in d.order.value && c.join != gone)
  {
    forall c
      ensures c in DropItems(d.order.value, index + 1) <==> c in d.order.value && c.join != index + 1
    {
      DroppedMembers(d.order.value, index + 1, c);
    }
  }

  lemma {:induction false} DroppedMembers(order: seq<JoinColumn>, gone: nat, c: JoinColumn)
    ensures c in DropItems(order, gone) <==> c in order && c.join != gone
  {
    if order != [] {
      DroppedMembers(order[1..], gone, c);
      assert order == [order[0]] + order[1..];
    }
  }

  ghost predicate NamesRight(on: seq<DraftPair>) {
    exists k :: 0 <= k < |on| && on[k].rightColumn != ""
  }

  /** Whether any part of the draft names a column of table `pos`. */
  ghost predicate NamesColumnOf(d: Draft, pos: nat)
    requires pos < |d.columns|
  {
    || d.columns[pos].Some?
    || (d.order.Some? && exists i :: 0 <= i < |d.order.value| && d.order.value[i].join == pos)
    || (exists i, k :: 0 <= i < |d.joins| && 0 <= k < |d.joins[i].on|
                       && d.joins[i].on[k].leftJoin == pos && d.joins[i].on[k].leftColumn != "")
    || (0 < pos <= |d.joins| && NamesRight(d.joins[pos - 1].on))
  }

  /** After another table is put at `pos`, nothing in the draft names a column of the old one. */
  lemma SetTableAtForgets(d: Draft, pos: nat, table: string)
    requires DraftWF(d) && pos <= |d.joins|
    ensures !NamesColumnOf(SetTableAt(d, pos, table), pos)
  {
    var d', put := SetTableAt(d, pos, table), PutTable(d, pos, table);
    forall i, k | 0 <= i < |d'.joins| && 0 <= k < |d'.joins[i].on| && d'.joins[i].on[k].leftJoin == pos
      ensures d'.joins[i].on[k].leftColumn == ""
    {
      assert put.joins[i].on == d.joins[i].on;
      if i > OwnJoin(pos) {
        assert d'.joins[i].on[k] == BlankedPair(d.joins[i].on[k], pos);
      }
    }
  }

  /** Outside `pos` nothing changes but blanked sides and the join OwnJoin(pos), reset to one empty pair. */
  lemma SetTableAtKeepsRest(d: Draft, pos: nat, table: string)
    requires DraftWF(d) && pos <= |d.joins|
    ensures var d' := SetTableAt(d, pos, table);
            && EntryAt(d', pos) == (table, EntryAt(d, pos).1)
            && (forall p :: 0 <= p <= |d.joins| && p != pos ==>
                  EntryAt(d', p) == EntryAt(d, p) && d'.columns[p] == d.columns[p])
            && (forall i :: 0 <= i < |d.joins| && i != OwnJoin(pos) ==>
                  |d'.joins[i].on| == |d.joins[i].on| && d'.joins[i].kind == d.joins[i].kind)
            && (forall i, k :: 0 <= i < |d.joins| && i != OwnJoin(pos) && 0 <= k < |d.joins[i].on| ==>
                  d'.joins[i].on[k] == BlankedPair(d.joins[i].on[k], pos))
            && (OwnJoin(pos) < |d.joins| ==> d'.joins[OwnJoin(pos)].on == [EMPTY_PAIR])
  {
    var d', put := SetTableAt(d, pos, table), PutTable(d, pos, table);
    forall i, k | 0 <= i < |d.joins| && i != OwnJoin(pos) && 0 <= k < |d.joins[i].on|
      ensures d'.joins[i].on[k] == BlankedPair(d.joins[i].on[k], pos)
    {
      assert put.joins[i].on == d.joins[i].on;
    }
  }
}

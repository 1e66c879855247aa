/** The contacts chosen for the n8n export: those whose id was picked in
    the export multi-select, in the order the contacts were fetched. */
module ExportSelection {
  import opened Values

  /** contact.get("id"): the contact's id, Null when it has none. */
  function IdOf(c: Record): Value
  {
    Get(c, "id", Null)
  }

  /** The contacts whose id is among `selected`, in contact order. */
  function SelectForExport(contacts: seq<Record>, selected: seq<Value>): (r: seq<Record>)
    ensures |r| <= |contacts|
    ensures forall c :: c in r ==> c in contacts && IdOf(c) in selected
    decreases |contacts|
  {
    if contacts == [] then []
    else
      var n := |contacts| - 1;
      SelectForExport(contacts[..n], selected) + (if IdOf(contacts[n]) in selected then [contacts[n]] else [])
  }

  /** The positions of the contacts SelectForExport keeps. */
  function SelectedPositions(contacts: seq<Record>, selected: seq<Value>): seq<nat>
    decreases |contacts|
  {
    if contacts == [] then []
    else
      var n := |contacts| - 1;
      SelectedPositions(contacts[..n], selected) + (if IdOf(contacts[n]) in selected then [n] else [])
  }

  /** The selection is the subsequence of the contacts at the positions
      SelectedPositions lists. */
  lemma {:induction false} SelectionAtPositions(contacts: seq<Record>, selected: seq<Value>)
    ensures var r, pos := SelectForExport(contacts, selected), SelectedPositions(contacts, selected);
      && |pos| == |r|
      && forall k :: 0 <= k < |pos| ==> pos[k] < |contacts| && r[k] == contacts[pos[k]]
    decreases |contacts|
  {
    if contacts != [] {
      var n := |contacts| - 1;
      var front := contacts[..n];
      SelectionAtPositions(front, selected);
      var r, pos := SelectForExport(contacts, selected), SelectedPositions(contacts, selected);
      var pos' := SelectedPositions(front, selected);
      forall k | 0 <= k < |pos'|
        ensures pos[k] < |contacts| && r[k] == contacts[pos[k]]
      {
        assert front[pos'[k]] == contacts[pos'[k]];
      }
    }
  }

  /** The kept positions strictly increase: the selection keeps the
      contacts' order, not the order in which ids were picked. */
  lemma {:induction false} PositionsIncrease(contacts: seq<Record>, selected: seq<Value>)
    ensures forall k :: 0 <= k < |SelectedPositions(contacts, selected)| ==>
              SelectedPositions(contacts, selected)[k] < |contacts|
    ensures forall k, l :: 0 <= k < l < |SelectedPositions(contacts, selected)| ==>
              SelectedPositions(contacts, selected)[k] < SelectedPositions(contacts, selected)[l]
    decreases |contacts|
  {
    if contacts != [] {
      var n := |contacts| - 1;
      var front := contacts[..n];
      PositionsIncrease(front, selected);
      var pos, pos' := SelectedPositions(contacts, selected), SelectedPositions(front, selected);
      assert forall k :: 0 <= k < |pos'| ==> pos[k] == pos'[k];
    }
  }

  /** A position is kept exactly when the contact there has a selected
      id: nothing else is included and nothing selected is lost. */
  lemma {:induction false} PositionKeptIff(contacts: seq<Record>, selected: seq<Value>, i: nat)
    requires i < |contacts|
    ensures i in SelectedPositions(contacts, selected) <==> IdOf(contacts[i]) in selected
    decreases |contacts|
  {
    var n := |contacts| - 1;
    var front := contacts[..n];
    PositionsIncrease(front, selected);
    if i < n {
      PositionKeptIff(front, selected, i);
      assert front[i] == contacts[i];
    }
  }

  /** Only which ids were selected matters, not the order or repetition
      in which they were picked. */
  lemma {:induction false} SelectionOrderIrrelevant(contacts: seq<Record>, s1: seq<Value>, s2: seq<Value>)
    requires forall v :: v in s1 <==> v in s2
    ensures SelectForExport(contacts, s1) == SelectForExport(contacts, s2)
    decreases |contacts|
  {
    if contacts != [] {
      SelectionOrderIrrelevant(contacts[..|contacts| - 1], s1, s2);
    }
  }
}

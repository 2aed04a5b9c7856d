/** The operations one queue run takes. */
module QueueListing {
  import opened Domain
  import opened StateTables
  import opened SyncEngine
  import Ordering

  ghost predicate DistinctIds(ops: seq<Operation>) {
    forall i, j :: 0 <= i < j < |ops| ==> ops[i].id != ops[j].id
  }

  lemma {:induction false} SelectedFacts(ops: seq<Operation>, peer: DeviceId, kind: OperationKind)
    ensures forall op :: op in Selected(ops, peer, kind) <==> op in ops && Listed(op, peer, kind)
    ensures DistinctIds(ops) ==> DistinctIds(Selected(ops, peer, kind))
  {
    if ops != [] {
      SelectedFacts(ops[1..], peer, kind);
      assert ops == [ops[0]] + ops[1..];
      var rest := Selected(ops[1..], peer, kind);
      forall j | DistinctIds(ops) && 0 <= j < |rest| ensures rest[j].id != ops[0].id {
        assert rest[j] in rest;
        var k :| 0 <= k < |ops[1..]| && ops[1..][k] == rest[j];
        assert ops[k + 1] == rest[j];
      }
    }
  }

  lemma OlderFirstIsOrder()
    ensures Ordering.TotalPreorder(OlderFirst)
  {
    forall a, b ensures OlderFirst(a, b) || OlderFirst(b, a) {
      Ordering.LexTotal(a.path, b.path);
    }
    forall a, b, c | OlderFirst(a, b) && OlderFirst(b, c) ensures OlderFirst(a, c) {
      if a.created == b.created == c.created {
        Ordering.LexTransitive(a.path, b.path, c.path);
      }
    }
  }

  lemma {:induction false} MultisetOfDistinct(s: seq<Operation>)
    requires DistinctIds(s)
    ensures forall op :: multiset(s)[op] <= 1
  {
    if s != [] {
      MultisetOfDistinct(s[1..]);
      assert s == [s[0]] + s[1..];
      assert s[0] !in s[1..];
    }
  }

  lemma HeldTwice(t: seq<Operation>, i: nat, j: nat)
    requires i < j < |t| && t[i] == t[j]
    ensures multiset(t)[t[i]] >= 2
  {
    assert t == t[..i] + [t[i]] + t[i + 1..j] + [t[j]] + t[j + 1..];
  }

  lemma PermutationKeepsDistinct(s: seq<Operation>, t: seq<Operation>)
    requires DistinctIds(s) && multiset(s) == multiset(t)
    ensures DistinctIds(t)
  {
    MultisetOfDistinct(s);
    forall i, j | 0 <= i < j < |t| ensures t[i].id != t[j].id {
      if t[i].id == t[j].id {
        assert t[i] in multiset(s) && t[j] in multiset(s);
        var x, y :| 0 <= x < |s| && 0 <= y < |s| && s[x] == t[i] && s[y] == t[j];
        HeldTwice(t, i, j);
      }
    }
  }

  /** The columns that `ORDER BY created_at_unix, path` goes by. */
  predicate InOrder(a: Operation, b: Operation) {
    a.created < b.created || (a.created == b.created && Ordering.LexLe(a.path, b.path))
  }

  lemma SortedIsInOrder(listed: seq<Operation>)
    requires Ordering.SortedBy(OlderFirst, listed)
    ensures forall i, j :: 0 <= i < j < |listed| ==> InOrder(listed[i], listed[j])
  {
    hide Ordering.LexLe;
    forall i, j | 0 <= i < j < |listed| ensures InOrder(listed[i], listed[j]) {
      assert OlderFirst(listed[i], listed[j]);
    }
  }

  lemma ListingSorts(ops: seq<Operation>, peer: DeviceId, kind: OperationKind) returns (sorted: seq<Operation>)
    requires DistinctIds(ops)
    ensures sorted == Ordering.StableSort(OlderFirst, Selected(ops, peer, kind))
    ensures |sorted| == |Selected(ops, peer, kind)| && DistinctIds(sorted)
    ensures forall op :: op in sorted <==> op in ops && Listed(op, peer, kind)
    ensures forall i, j :: 0 <= i < j < |sorted| ==> InOrder(sorted[i], sorted[j])
  {
    hide Selected, OlderFirst, Listed, InOrder;
    var selected := Selected(ops, peer, kind);
    sorted := Ordering.StableSort(OlderFirst, selected);
    SelectedFacts(ops, peer, kind);
    OlderFirstIsOrder();
    Ordering.StableSortFacts(OlderFirst, selected);
    assert |multiset(sorted)| == |sorted| && |multiset(selected)| == |selected|;
    PermutationKeepsDistinct(selected, sorted);
    forall op ensures op in sorted <==> op in selected {
      assert op in sorted <==> op in multiset(sorted);
      assert op in selected <==> op in multiset(selected);
    }
    SortedIsInOrder(sorted);
  }

  lemma LeftBehind(sorted: seq<Operation>, limit: nat, left: Operation)
    requires left in sorted && left !in Take(sorted, limit)
    requires forall i, j :: 0 <= i < j < |sorted| ==> InOrder(sorted[i], sorted[j])
    ensures |Take(sorted, limit)| == limit && forall op :: op in Take(sorted, limit) ==> InOrder(op, left)
  {
    hide InOrder;
    var listed := Take(sorted, limit);
    assert forall k :: 0 <= k < |listed| ==> listed[k] in listed && listed[k] == sorted[k];
    var j :| 0 <= j < |sorted| && sorted[j] == left;
    forall op | op in listed ensures InOrder(op, left) {
      var i :| 0 <= i < |listed| && listed[i] == op;
    }
  }

  /** A listing holds pending operations of the wanted kind and peer, each once, by the
      time of their plan and then by path. What is left out comes no earlier than
      anything that is listed, and is left out only because the limit is reached. */
  lemma ListPendingFacts(ops: seq<Operation>, peer: DeviceId, kind: OperationKind, limit: nat)
    requires DistinctIds(ops)
    ensures var listed := ListPending(ops, peer, kind, limit);
      && (forall op :: op in listed ==>
            op in ops && op.remoteDevice == peer && op.kind == kind && op.status == Pending)
      && DistinctIds(listed)
      && |listed| == Min(limit, |Selected(ops, peer, kind)|)
      && (forall i, j :: 0 <= i < j < |listed| ==> InOrder(listed[i], listed[j]))
      && (forall left :: left in ops && left.remoteDevice == peer && left.kind == kind && left.status == Pending ==>
            left in listed || (|listed| == limit && forall op :: op in listed ==> InOrder(op, left)))
  {
    hide Selected, OlderFirst, InOrder;
    var sorted := ListingSorts(ops, peer, kind);
    var listed := Take(sorted, limit);
    assert forall k :: 0 <= k < |listed| ==> sorted[k] in sorted && listed[k] == sorted[k];
    forall left | left in sorted && left !in listed
      ensures |listed| == limit && forall op :: op in listed ==> InOrder(op, left)
    {
      LeftBehind(sorted, limit, left);
    }
    hide ListPending, Take;
  }

  /** The downloads, then the uploads within what is left of the limit. */
  lemma RunListFacts(w: World, limit: nat)
    requires DistinctIds(w.Operations())
    ensures var ops := RunList(w, limit);
      && (forall op :: op in ops ==>
            op in w.Operations() && op.IsTransfer() && op.status == Pending && op.remoteDevice == w.peer.id)
      && DistinctIds(ops)
      && |ops| <= limit
  {
    hide ListPending;
    var downloads := ListPending(w.Operations(), w.peer.id, Download, limit);
    var uploads := ListPending(w.Operations(), w.peer.id, Upload, SaturatingSub(limit, |downloads|));
    ListPendingFacts(w.Operations(), w.peer.id, Download, limit);
    ListPendingFacts(w.Operations(), w.peer.id, Upload, SaturatingSub(limit, |downloads|));
    forall i, j | 0 <= i < |downloads| && 0 <= j < |uploads| ensures downloads[i].id != uploads[j].id {
      assert downloads[i] in downloads && uploads[j] in uploads;
      var x, y :| 0 <= x < |w.Operations()| && 0 <= y < |w.Operations()|
               && w.Operations()[x] == downloads[i] && w.Operations()[y] == uploads[j];
    }
  }

  /** Downloads come first, each direction in its order; a pending upload is left out only
      when the limit is reached, and a pending download only when downloads reach it. */
  lemma RunListOrder(w: World, limit: nat)
    requires DistinctIds(w.Operations())
    ensures var ops := RunList(w, limit);
      && (forall i, j :: 0 <= i < j < |ops| && ops[i].kind == Upload ==> ops[j].kind == Upload)
      && (forall i, j :: 0 <= i < j < |ops| && ops[i].kind == ops[j].kind ==> InOrder(ops[i], ops[j]))
      && (forall left :: left in w.Operations() && left.remoteDevice == w.peer.id && left.status == Pending ==>
            && (left.kind == Upload ==> left in ops || |ops| == limit)
            && (left.kind == Download ==>
                  left in ops || (|ops| == limit && forall op :: op in ops ==> op.kind == Download)))
  {
    hide ListPending, InOrder;
    var downloads := ListPending(w.Operations(), w.peer.id, Download, limit);
    var room := SaturatingSub(limit, |downloads|);
    var uploads := ListPending(w.Operations(), w.peer.id, Upload, room);
    ListPendingFacts(w.Operations(), w.peer.id, Download, limit);
    ListPendingFacts(w.Operations(), w.peer.id, Upload, room);
    var ops := RunList(w, limit);
    assert ops == downloads + uploads;
    forall i | 0 <= i < |ops| ensures ops[i].kind == if i < |downloads| then Download else Upload {
      assert if i < |downloads| then ops[i] in downloads else ops[i] in uploads;
    }
  }
}

/** Greedy planning of transfers under a folder limit (crates/syncer-core/src/limits.rs). */
module Limits {
  import opened Wrappers
  import opened Domain
  import Ordering

  datatype LimitError = InvalidFolderLimit | InvalidWarningThreshold

  datatype PendingTransfer = PendingTransfer(operationId: OperationId, path: Path, size: U64, queuedAt: int)

  datatype FolderLimitPlan = FolderLimitPlan(
    accepted: seq<PendingTransfer>,
    skipped: seq<PendingTransfer>,
    finalUsed: nat,
    warningReached: bool)

  datatype FolderSizeLimit = FolderSizeLimit(maxBytes: U64, warningPercent: nat) {
    function Remaining(used: nat): nat {
      SaturatingSub(maxBytes, used)
    }

    predicate WarningReached(used: nat) {
      used >= Min(maxBytes * warningPercent, U64_MAX) / 100
    }
  }

  function New(maxBytes: U64, warningPercent: nat): (r: Result<FolderSizeLimit, LimitError>)
    ensures r.Ok? <==> maxBytes > 0 && 1 <= warningPercent <= 100
    ensures r.Ok? ==> r.value.maxBytes == maxBytes && r.value.warningPercent == warningPercent
    ensures r.Err? ==> (r.error == InvalidFolderLimit <==> maxBytes == 0)
  {
    if maxBytes == 0 then Err(InvalidFolderLimit)
    else if !(1 <= warningPercent <= 100) then Err(InvalidWarningThreshold)
    else Ok(FolderSizeLimit(maxBytes, warningPercent))
  }

  predicate QueuedNoLater(a: PendingTransfer, b: PendingTransfer) {
    a.queuedAt <= b.queuedAt
  }

  function OldestFirst(pending: seq<PendingTransfer>): seq<PendingTransfer> {
    Ordering.StableSort(QueuedNoLater, pending)
  }

  /** A choice says for each transfer of a list whether it is taken. */
  type Choice = seq<bool>

  function SizeOfFirst(ts: seq<PendingTransfer>, choice: Choice, n: nat): nat
    requires |choice| == |ts| && n <= |ts|
  {
    if n == 0 then 0
    else SizeOfFirst(ts, choice, n - 1) + (if choice[n - 1] then ts[n - 1].size else 0)
  }

  function Chosen(ts: seq<PendingTransfer>, choice: Choice, wanted: bool, n: nat): seq<PendingTransfer>
    requires |choice| == |ts| && n <= |ts|
  {
    if n == 0 then []
    else if choice[n - 1] == wanted then Chosen(ts, choice, wanted, n - 1) + [ts[n - 1]]
    else Chosen(ts, choice, wanted, n - 1)
  }

  /** A choice that keeps the folder within its limit, or where it was if it
      started beyond. */
  predicate Feasible(limit: FolderSizeLimit, used: nat, ts: seq<PendingTransfer>, choice: Choice)
    requires |choice| == |ts|
  {
    used + SizeOfFirst(ts, choice, |ts|) <= Max(used, limit.maxBytes)
  }

  /** The first place where two choices differ, if any, has `better` take it. */
  ghost predicate AtLeastAsOld(better: Choice, other: Choice)
    requires |better| == |other|
  {
    better == other
    || exists i :: 0 <= i < |better| && better[i] && !other[i] && better[..i] == other[..i]
  }

  /** Among the first `n`, a transfer is taken exactly when it fits at its turn. */
  ghost predicate Greedy(limit: FolderSizeLimit, used: nat, ts: seq<PendingTransfer>, choice: Choice, n: nat)
    requires |choice| == |ts| && n <= |ts|
  {
    n == 0 ||
    (&& Greedy(limit, used, ts, choice, n - 1)
     && (choice[n - 1] <==> ts[n - 1].size <= limit.Remaining(used + SizeOfFirst(ts, choice, n - 1))))
  }

  lemma {:induction false} GreedyAt(limit: FolderSizeLimit, used: nat, ts: seq<PendingTransfer>, choice: Choice, n: nat, i: nat)
    requires |choice| == |ts| && i < n <= |ts| && Greedy(limit, used, ts, choice, n)
    ensures choice[i] <==> ts[i].size <= limit.Remaining(used + SizeOfFirst(ts, choice, i))
  {
    if i != n - 1 {
      GreedyAt(limit, used, ts, choice, n - 1, i);
    }
  }

  lemma {:induction false} GreedyOfPrefix(limit: FolderSizeLimit, used: nat, ts: seq<PendingTransfer>, a: Choice, b: Choice, n: nat)
    requires |a| == |b| == |ts| && n <= |ts| && a[..n] == b[..n] && Greedy(limit, used, ts, a, n)
    ensures Greedy(limit, used, ts, b, n)
  {
    if n != 0 {
      PrefixOfPrefix(a, b, n);
      GreedyOfPrefix(limit, used, ts, a, b, n - 1);
      SizeOfPrefix(ts, a, b, n - 1);
    }
  }

  lemma PrefixOfPrefix(a: Choice, b: Choice, n: nat)
    requires |a| == |b| && 0 < n <= |a| && a[..n] == b[..n]
    ensures a[..n - 1] == b[..n - 1] && a[n - 1] == b[n - 1]
  {
    assert a[..n - 1] == a[..n][..n - 1] == b[..n][..n - 1] == b[..n - 1];
    assert a[n - 1] == a[..n][n - 1] == b[..n][n - 1] == b[n - 1];
  }

  lemma {:induction false} SizeOfPrefix(ts: seq<PendingTransfer>, a: Choice, b: Choice, n: nat)
    requires |a| == |b| == |ts| && n <= |ts| && a[..n] == b[..n]
    ensures SizeOfFirst(ts, a, n) == SizeOfFirst(ts, b, n)
  {
    if n != 0 {
      PrefixOfPrefix(a, b, n);
      SizeOfPrefix(ts, a, b, n - 1);
    }
  }

  lemma {:induction false} SizeGrows(ts: seq<PendingTransfer>, choice: Choice, m: nat, n: nat)
    requires |choice| == |ts| && m <= n <= |ts|
    ensures SizeOfFirst(ts, choice, m) <= SizeOfFirst(ts, choice, n)
  {
    if m < n {
      SizeGrows(ts, choice, m, n - 1);
    }
  }

  lemma {:induction false} GreedyIsWithin(limit: FolderSizeLimit, used: nat, ts: seq<PendingTransfer>, choice: Choice, n: nat)
    requires |choice| == |ts| && n <= |ts| && Greedy(limit, used, ts, choice, n)
    ensures used + SizeOfFirst(ts, choice, n) <= Max(used, limit.maxBytes)
  {
    if n != 0 {
      GreedyIsWithin(limit, used, ts, choice, n - 1);
    }
  }

  lemma FirstDifference(a: Choice, b: Choice)
    requires |a| == |b|
    ensures a == b || exists i :: 0 <= i < |a| && a[i] != b[i] && a[..i] == b[..i]
  {
    var i := 0;
    while i < |a| && a[i] == b[i]
      invariant i <= |a| && a[..i] == b[..i]
    {
      i := i + 1;
    }
    if i < |a| {
      assert a[i] != b[i] && a[..i] == b[..i];
    } else {
      assert a == a[..i] && b == b[..i];
    }
  }

  /** Of all feasible choices the greedy one is the best, oldest first: whatever
      another choice takes, the greedy one has taken something older instead. */
  lemma GreedyIsBest(limit: FolderSizeLimit, used: nat, ts: seq<PendingTransfer>, greedy: Choice, other: Choice)
    requires |greedy| == |other| == |ts| && Greedy(limit, used, ts, greedy, |ts|) && Feasible(limit, used, ts, other)
    ensures Feasible(limit, used, ts, greedy) && AtLeastAsOld(greedy, other)
  {
    GreedyIsWithin(limit, used, ts, greedy, |ts|);
    FirstDifference(greedy, other);
    if greedy != other {
      var i :| 0 <= i < |ts| && greedy[i] != other[i] && greedy[..i] == other[..i];
      if other[i] {
        GreedyAt(limit, used, ts, greedy, |ts|, i);
        SizeOfPrefix(ts, greedy, other, i);
        SizeGrows(ts, other, i + 1, |ts|);
        assert false;
      }
    }
  }

  /** No skipped transfer would fit into what is left in the end. */
  lemma SkippedDoNotFit(limit: FolderSizeLimit, used: nat, ts: seq<PendingTransfer>, choice: Choice, i: nat)
    requires |choice| == |ts| && i < |ts| && Greedy(limit, used, ts, choice, |ts|) && !choice[i]
    ensures ts[i].size > limit.Remaining(used + SizeOfFirst(ts, choice, |ts|))
  {
    GreedyAt(limit, used, ts, choice, |ts|, i);
    SizeGrows(ts, choice, i, |ts|);
  }

  lemma {:induction false} ChosenPartition(ts: seq<PendingTransfer>, choice: Choice, n: nat)
    requires |choice| == |ts| && n <= |ts|
    ensures multiset(Chosen(ts, choice, true, n)) + multiset(Chosen(ts, choice, false, n)) == multiset(ts[..n])
  {
    if n != 0 {
      ChosenPartition(ts, choice, n - 1);
      assert ts[..n] == ts[..n - 1] + [ts[n - 1]];
    }
  }

  lemma ByAgeIsOrder()
    ensures Ordering.TotalPreorder(QueuedNoLater)
  {
  }

  /** The transfers that were queued at one time, in the order they were given. */
  function QueuedAt(ts: seq<PendingTransfer>, time: int): seq<PendingTransfer> {
    if ts == [] then []
    else if ts[0].queuedAt == time then [ts[0]] + QueuedAt(ts[1..], time)
    else QueuedAt(ts[1..], time)
  }

  lemma {:induction false} TiedIsQueuedAt(ts: seq<PendingTransfer>, t: PendingTransfer)
    ensures Ordering.TiedWith(QueuedNoLater, t, ts) == QueuedAt(ts, t.queuedAt)
  {
    if ts != [] {
      TiedIsQueuedAt(ts[1..], t);
    }
  }

  /** The transfers are taken in the order of their age, and those of one age in
      the order they were given. */
  lemma OldestFirstIsStable(pending: seq<PendingTransfer>, time: int)
    ensures var ts := OldestFirst(pending);
      && (forall i, j :: 0 <= i < j < |ts| ==> ts[i].queuedAt <= ts[j].queuedAt)
      && multiset(ts) == multiset(pending)
      && QueuedAt(ts, time) == QueuedAt(pending, time)
  {
    ByAgeIsOrder();
    Ordering.StableSortFacts(QueuedNoLater, pending);
    var t := PendingTransfer(0, "", 0, time);
    Ordering.SortIsStable(QueuedNoLater, pending, t);
    TiedIsQueuedAt(pending, t);
    TiedIsQueuedAt(OldestFirst(pending), t);
    var ts := OldestFirst(pending);
    forall i, j | 0 <= i < j < |ts| ensures ts[i].queuedAt <= ts[j].queuedAt {
      assert QueuedNoLater(ts[i], ts[j]);
    }
  }

  /** The warning comes from the first byte on that reaches the percentage of the limit,
      rounded down; where the product saturates, from that of the largest number on. */
  lemma WarningExact(limit: FolderSizeLimit, used: nat)
    ensures limit.maxBytes * limit.warningPercent <= U64_MAX ==>
      (limit.WarningReached(used) <==> 100 * (used + 1) > limit.maxBytes * limit.warningPercent)
    ensures limit.maxBytes * limit.warningPercent > U64_MAX ==>
      (limit.WarningReached(used) <==> 100 * (used + 1) > U64_MAX)
  {
    var product := Min(limit.maxBytes * limit.warningPercent, U64_MAX);
    assert product == product / 100 * 100 + product % 100;
  }

  lemma OldestFirstPermutes(pending: seq<PendingTransfer>)
    ensures multiset(OldestFirst(pending)) == multiset(pending)
  {
    ByAgeIsOrder();
    Ordering.StableSortFacts(QueuedNoLater, pending);
  }

  /** One turn of the loop. */
  lemma TurnOf(limit: FolderSizeLimit, used: nat, ts: seq<PendingTransfer>, before: Choice, choice: Choice, i: nat)
    requires |before| == |ts| && i < |ts| && Greedy(limit, used, ts, before, i)
    requires choice == before[i := ts[i].size <= limit.Remaining(used + SizeOfFirst(ts, before, i))]
    ensures Greedy(limit, used, ts, choice, i + 1)
    ensures SizeOfFirst(ts, choice, i + 1) == SizeOfFirst(ts, before, i) + (if choice[i] then ts[i].size else 0)
    ensures Chosen(ts, choice, choice[i], i + 1) == Chosen(ts, before, choice[i], i) + [ts[i]]
    ensures Chosen(ts, choice, !choice[i], i + 1) == Chosen(ts, before, !choice[i], i)
  {
    assert choice[..i] == before[..i];
    SizeOfPrefix(ts, choice, before, i);
    GreedyOfPrefix(limit, used, ts, before, choice, i);
    ChosenOfPrefix(ts, choice, before, i);
  }

  /** The planned choice is the greedy one on the transfers sorted by age, ties in
      their given order; `finalUsed` is what it adds up to. */
  method PlanTransfers(limit: FolderSizeLimit, used: U64, pending: seq<PendingTransfer>)
    returns (plan: FolderLimitPlan, ghost choice: Choice)
    ensures |choice| == |pending| == |OldestFirst(pending)|
    ensures Greedy(limit, used, OldestFirst(pending), choice, |pending|)
    ensures plan.accepted == Chosen(OldestFirst(pending), choice, true, |pending|)
    ensures plan.skipped == Chosen(OldestFirst(pending), choice, false, |pending|)
    ensures plan.finalUsed == used + SizeOfFirst(OldestFirst(pending), choice, |pending|) <= Max(used, limit.maxBytes)
    ensures plan.warningReached == limit.WarningReached(plan.finalUsed)
    ensures multiset(plan.accepted) + multiset(plan.skipped) == multiset(pending)
  {
    hide Ordering.StableSort, Ordering.SortedBy, QueuedNoLater;
    var ts := OldestFirst(pending);
    OldestFirstPermutes(pending);
    assert |ts| == |multiset(ts)| == |multiset(pending)| == |pending|;
    var finalUsed, accepted, skipped := used, [], [];
    choice := seq(|ts|, _ => false);
    for i := 0 to |ts|
      invariant |choice| == |ts|
      invariant finalUsed == used + SizeOfFirst(ts, choice, i) <= Max(used, limit.maxBytes)
      invariant accepted == Chosen(ts, choice, true, i) && skipped == Chosen(ts, choice, false, i)
      invariant Greedy(limit, used, ts, choice, i)
    {
      ghost var before := choice;
      if ts[i].size <= limit.Remaining(finalUsed) {
        finalUsed := SaturatingAdd(finalUsed, ts[i].size);
        accepted := accepted + [ts[i]];
        choice := choice[i := true];
      } else {
        skipped := skipped + [ts[i]];
        choice := choice[i := false];
      }
      TurnOf(limit, used, ts, before, choice, i);
    }
    ChosenPartition(ts, choice, |ts|);
    assert ts[..|ts|] == ts;
    plan := FolderLimitPlan(accepted, skipped, finalUsed, limit.WarningReached(finalUsed));
  }

  lemma {:induction false} ChosenOfPrefix(ts: seq<PendingTransfer>, a: Choice, b: Choice, n: nat)
    requires |a| == |b| == |ts| && n <= |ts| && a[..n] == b[..n]
    ensures forall w :: Chosen(ts, a, w, n) == Chosen(ts, b, w, n)
  {
    if n != 0 {
      PrefixOfPrefix(a, b, n);
      ChosenOfPrefix(ts, a, b, n - 1);
    }
  }
}

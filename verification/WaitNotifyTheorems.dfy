/** What holds over every run of waits, timeouts and notifies. */
module WaitNotifyTheorems {
  import opened Prelude
  import opened WaitNotify
  import opened WaitNotifyInvariant

  // ----- conservation of wakeups -----

  function SumCounted(calls: seq<Call>): nat {
    if calls == [] then 0 else SumCounted(calls[..|calls| - 1]) + Counted(calls[|calls| - 1])
  }

  function CountNotified(ws: seq<Waiter>): nat {
    if ws == [] then 0 else CountNotified(ws[..|ws| - 1]) + if ws[|ws| - 1].notified then 1 else 0
  }

  /** How many waiters call c has woken. */
  function CountWokenBy(ws: seq<Waiter>, c: nat): nat {
    if ws == [] then 0 else CountWokenBy(ws[..|ws| - 1], c) + if ws[|ws| - 1].wokenBy == Some(c) then 1 else 0
  }

  ghost predicate Conserved(s: State) {
    && SumCounted(s.calls) == CountNotified(s.waiters)
    && forall c :: 0 <= c < |s.calls| ==> Counted(s.calls[c]) == CountWokenBy(s.waiters, c)
  }

  lemma {:induction false} SumCountedPut(calls: seq<Call>, c: nat, p: Call)
    requires c < |calls|
    ensures SumCounted(calls[c := p]) == SumCounted(calls) - Counted(calls[c]) + Counted(p)
    decreases |calls|
  {
    var n := |calls| - 1;
    if c == n {
      assert calls[c := p][..n] == calls[..n];
    } else {
      assert calls[c := p][..n] == calls[..n][c := p];
      SumCountedPut(calls[..n], c, p);
    }
  }

  lemma {:induction false} CountPut(ws: seq<Waiter>, w: nat, y: Waiter, c: nat)
    requires w < |ws|
    ensures CountNotified(ws[w := y])
         == CountNotified(ws) - (if ws[w].notified then 1 else 0) + (if y.notified then 1 else 0)
    ensures CountWokenBy(ws[w := y], c)
         == CountWokenBy(ws, c) - (if ws[w].wokenBy == Some(c) then 1 else 0) + (if y.wokenBy == Some(c) then 1 else 0)
    decreases |ws|
  {
    var n := |ws| - 1;
    if w == n {
      assert ws[w := y][..n] == ws[..n];
    } else {
      assert ws[w := y][..n] == ws[..n][w := y];
      CountPut(ws[..n], w, y, c);
    }
  }

  lemma CountAppend(ws: seq<Waiter>, y: Waiter, c: nat)
    ensures CountNotified(ws + [y]) == CountNotified(ws) + if y.notified then 1 else 0
    ensures CountWokenBy(ws + [y], c) == CountWokenBy(ws, c) + if y.wokenBy == Some(c) then 1 else 0
  {
    assert (ws + [y])[..|ws|] == ws;
  }

  lemma {:induction false} NobodyWokenBy(ws: seq<Waiter>, c: nat)
    requires forall w :: 0 <= w < |ws| ==> ws[w].wokenBy != Some(c)
    ensures CountWokenBy(ws, c) == 0
  {
    if ws != [] { NobodyWokenBy(ws[..|ws| - 1], c); }
  }

  /** The step adds a fresh waiter and counts nothing. */
  ghost predicate Adds(s: State, t: State, c: nat)
    requires c < |s.calls| && c < |t.calls|
  {
    var n := |s.waiters|;
    && |t.waiters| == n + 1 && t.waiters == s.waiters + [t.waiters[n]]
    && !t.waiters[n].notified && t.waiters[n].wokenBy == None
    && Counted(t.calls[c]) == Counted(s.calls[c])
  }

  /** The step writes waiter w, and counts a wakeup exactly when it sets that waiter's flag. */
  ghost predicate Writes(s: State, t: State, c: nat, w: nat)
    requires c < |s.calls| && c < |t.calls|
  {
    && w < |s.waiters| == |t.waiters| && t.waiters == s.waiters[w := t.waiters[w]]
    && (|| (t.waiters[w].notified == s.waiters[w].notified && t.waiters[w].wokenBy == s.waiters[w].wokenBy
            && Counted(t.calls[c]) == Counted(s.calls[c]))
        || (!s.waiters[w].notified && s.waiters[w].wokenBy == None && t.waiters[w].notified
            && t.waiters[w].wokenBy == Some(c) && Counted(t.calls[c]) == Counted(s.calls[c]) + 1))
  }

  ghost predicate CountsHonestly(s: State, t: State, c: nat) {
    && c < |s.calls| == |t.calls| && t.calls == s.calls[c := t.calls[c]]
    && (|| (t.waiters == s.waiters && Counted(t.calls[c]) == Counted(s.calls[c]))
        || Adds(s, t, c)
        || exists w: nat :: Writes(s, t, c, w))
  }

  lemma AdvanceCountsHonestly(s: State, c: nat, choice: Choice)
    requires Inv(s) && c < |s.calls| && Advance(s, c, choice).Some?
    ensures CountsHonestly(s, Advance(s, c, choice).value, c)
  {
    hide CallOk, QueueOk, QueueLockOk;
    var t := Advance(s, c, choice).value;
    match s.calls[c]
    case WaitEnqueue(index, timed) => assert Adds(s, t, c);
    case WaitCheck(w, _) => assert Writes(s, t, c, w);
    case WaitAsleep(w, _) => assert Writes(s, t, c, w);
    case NotifyMark(n, pos) =>
      assert WaiterOk(s, n.snapshot[pos]);
      assert Writes(s, t, c, n.snapshot[pos]);
    case NotifySweepCheck(n, pos, _) => assert Writes(s, t, c, n.snapshot[pos]);
    case _ =>
  }

  lemma HonestCountConserves(s: State, t: State, c: nat)
    requires Conserved(s) && CountsHonestly(s, t, c)
    ensures Conserved(t)
  {
    hide Counted;
    SumCountedPut(s.calls, c, t.calls[c]);
    if t.waiters == s.waiters && Counted(t.calls[c]) == Counted(s.calls[c]) {
    } else if Adds(s, t, c) {
      var y := t.waiters[|s.waiters|];
      CountAppend(s.waiters, y, c);
      forall d | 0 <= d < |t.calls| ensures Counted(t.calls[d]) == CountWokenBy(t.waiters, d) {
        CountAppend(s.waiters, y, d);
      }
    } else {
      var w: nat :| Writes(s, t, c, w);
      CountPut(s.waiters, w, t.waiters[w], c);
      forall d | 0 <= d < |t.calls| ensures Counted(t.calls[d]) == CountWokenBy(t.waiters, d) {
        CountPut(s.waiters, w, t.waiters[w], d);
      }
    }
  }

  lemma BeginConserves(s: State, p: Call)
    requires Inv(s) && Conserved(s) && (p.WaitStart? || p.NotifyStart?)
    ensures Conserved(s.(calls := s.calls + [p]))
  {
    hide CallOk, QueueOk, QueueLockOk;
    assert (s.calls + [p])[..|s.calls|] == s.calls;
    forall w | 0 <= w < |s.waiters| ensures s.waiters[w].wokenBy != Some(|s.calls|) { assert WaiterOk(s, w); }
    NobodyWokenBy(s.waiters, |s.calls|);
  }

  lemma {:induction false} RunConserves(s: State, events: seq<Event>)
    requires Inv(s) && Conserved(s) && ApplyAll(s, events).Some?
    ensures Conserved(ApplyAll(s, events).value)
    decreases |events|
  {
    hide Inv, Conserved, Advance;
    if events != [] {
      var s' := Apply(s, events[0]).value;
      ApplyKeepsInv(s, events[0]);
      match events[0] {
        case BeginWait(index, timed) => BeginConserves(s, WaitStart(index, timed));
        case BeginNotify(index, count) => BeginConserves(s, NotifyStart(index, count));
        case Act(c, choice) =>
          AdvanceCountsHonestly(s, c, choice);
          HonestCountConserves(s, s', c);
      }
      RunConserves(s', events[1..]);
    }
  }

  /** In every reachable state the wakeups counted by all notify calls, including those still in progress, are
      the waiters flagged notified, and each notify call has counted exactly the waiters it flagged. */
  lemma WakeupsConserved(s: State)
    requires Reachable(s)
    ensures SumCounted(s.calls) == CountNotified(s.waiters)
    ensures forall c :: 0 <= c < |s.calls| ==> Counted(s.calls[c]) == CountWokenBy(s.waiters, c)
  {
    var events :| ApplyAll(INITIAL, events) == Some(s);
    RunConserves(INITIAL, events);
  }

  /** A wait has returned true exactly when a notify call counted its waiter; one that timed out was never counted. */
  lemma WaitResult(s: State, c: nat)
    requires Reachable(s) && c < |s.calls| && s.calls[c].WaitDone?
    ensures var WaitDone(w, result) := s.calls[c];
      && w < |s.waiters|
      && (result <==> exists d :: 0 <= d < |s.calls| && s.waiters[w].wokenBy == Some(d))
      && (!result ==> !s.waiters[w].notified && s.waiters[w].wokenBy == None)
  {
    ReachableInv(s);
    assert CallOk(s, c) && WaiterOk(s, s.calls[c].w);
  }

  // ----- first in, first out; no lost waiter -----

  ghost predicate StandsOnlyAt(q: seq<nat>, k: int, w: nat) {
    0 <= k < |q| && q[k] == w && forall j :: 0 <= j < |q| && q[j] == w ==> j == k
  }

  /** A waiter not yet complete stands exactly once in the queue of its index. */
  lemma IncompleteWaiterQueuedOnce(s: State, w: nat)
    requires Reachable(s) && w < |s.waiters| && !s.waiters[w].complete
    ensures var i := s.waiters[w].index;
      i in s.queues && exists k :: StandsOnlyAt(s.queues[i], k, w)
  {
    ReachableInv(s);
    assert WaiterOk(s, w) && QueueOk(s, s.waiters[w].index);
    var q := s.queues[s.waiters[w].index];
    var k :| 0 <= k < |q| && q[k] == w;
    assert StandsOnlyAt(q, k, w);
  }

  /** When notify is about to mark a waiter, every waiter enqueued earlier at that index is already complete. */
  lemma WakesInOrder(s: State, c: nat, w: nat, earlier: nat)
    requires Reachable(s) && c < |s.calls| && s.calls[c].NotifyMark?
    requires var NotifyMark(n, pos) := s.calls[c]; pos < |n.snapshot| && n.snapshot[pos] == w
    requires w < |s.waiters| && earlier < w && s.waiters[earlier].index == s.waiters[w].index
    ensures s.waiters[earlier].complete
  {
    ReachableInv(s);
    var NotifyMark(n, pos) := s.calls[c];
    assert CallOk(s, c) && QueueOk(s, n.index) && WaiterOk(s, earlier);
    if earlier in n.snapshot {
      var k :| 0 <= k < |n.snapshot| && n.snapshot[k] == earlier;
      assert k < pos;
      assert n.snapshot[..pos][k] == earlier;
    }
  }

  /** What notify takes as its queue holds every incomplete waiter of that index. */
  lemma LookupSeesEveryWaiter(s: State, c: nat, w: nat)
    requires Reachable(s) && c < |s.calls| && s.calls[c].NotifyLookup?
    requires w < |s.waiters| && !s.waiters[w].complete && s.waiters[w].index == s.calls[c].index
    ensures var t := Advance(s, c, Proceed).value;
            t.calls[c].NotifyScan? && w in t.calls[c].n.snapshot
  {
    ReachableInv(s);
    assert WaiterOk(s, w);
  }

  /** A notify never wakes more than its limit; one that stopped below it leaves nobody of the queue it locked waiting. */
  lemma NotifyWakesEnough(s: State, c: nat)
    requires Reachable(s) && c < |s.calls| && s.calls[c].NotifyDone?
    ensures var n := s.calls[c].n;
      && n.woke <= n.limit
      && (n.woke < n.limit ==> forall w :: w in n.snapshot ==> w < |s.waiters| && s.waiters[w].complete)
  {
    ReachableInv(s);
    assert CallOk(s, c);
  }

  /** A notified waiter parked on its condvar has been signalled. */
  lemma NoLostWakeup(s: State, w: nat)
    requires Reachable(s) && w < |s.waiters|
    ensures s.waiters[w].asleep && s.waiters[w].notified ==> s.waiters[w].woken
  {
    ReachableInv(s);
    assert WaiterOk(s, w);
  }

  /** No empty queue is ever left in the waiter map, and a wait that returned is in no queue. */
  lemma QueuesAreTidy(s: State, c: nat)
    requires Reachable(s)
    ensures forall i :: i in s.queues ==> s.queues[i] != []
    ensures c < |s.calls| && s.calls[c].WaitDone? ==> forall i :: i in s.queues ==> s.calls[c].w !in s.queues[i]
  {
    ReachableInv(s);
    forall i | i in s.queues ensures s.queues[i] != [] { assert QueueOk(s, i); }
    if c < |s.calls| { assert CallOk(s, c); }
  }

  // ----- locks -----

  predicate RequestsQueue(p: Call) {
    p.WaitStart? || p.WaitLeaveLock? || p.NotifyStart?
  }

  function RequestedState(p: Call): Option<nat> {
    match p
    case WaitLock(w, _) => Some(w)
    case WaitAsleep(w, _) => Some(w)
    case NotifyScan(n, pos) => if pos < |n.snapshot| && n.woke < n.limit then Some(n.snapshot[pos]) else None
    case NotifySweep(n, pos, _) => if pos < |n.snapshot| then Some(n.snapshot[pos]) else None
    case _ => None
  }

  predicate Finished(p: Call) {
    p.WaitDone? || p.NotifyDone? || p.NotifyNone?
  }

  /** Parked without a time limit, and no notify has counted it. */
  ghost predicate ParkedForGood(s: State, c: nat) {
    && c < |s.calls| && s.calls[c].WaitAsleep? && !s.calls[c].timed
    && s.calls[c].w < |s.waiters| && !s.waiters[s.calls[c].w].notified
  }

  /** A call can step without a spurious wakeup. */
  ghost predicate CanStep(s: State, c: nat) {
    Apply(s, Act(c, Proceed)).Some? || Apply(s, Act(c, TimeOut)).Some?
  }

  ghost predicate OwnsNoState(s: State, c: nat) {
    forall w :: 0 <= w < |s.stateLocks| ==> s.stateLocks[w] != Some(c)
  }

  /** Locks are taken in order, the queue lock first and then at most one state lock: in every reachable state a call
      that wants the queue lock owns none at all, and one that wants a state lock owns no state lock. */
  lemma LocksInOrder(s: State, c: nat)
    requires Reachable(s) && c < |s.calls|
    ensures RequestsQueue(s.calls[c]) ==> s.queueLock != Some(c) && OwnsNoState(s, c)
    ensures RequestedState(s.calls[c]).Some? ==> OwnsNoState(s, c)
    ensures forall v, w :: 0 <= v < w < |s.stateLocks| && s.stateLocks[v] == Some(c) ==> s.stateLocks[w] != Some(c)
  {
    ReachableInv(s);
    hide Apply, CallOk;
    assert QueueLockOk(s);
    forall w | 0 <= w < |s.stateLocks| && s.stateLocks[w] == Some(c) ensures HeldState(s.calls[c]) == Some(w) {
      assert WaiterOk(s, w);
    }
  }

  /** A call whose requested lock is free can step, without any spurious wakeup, unless it is parked for good. */
  lemma BlockedOnlyByRequest(s: State, c: nat)
    requires Inv(s) && c < |s.calls| && !Finished(s.calls[c]) && !ParkedForGood(s, c)
    requires RequestsQueue(s.calls[c]) ==> s.queueLock == None
    requires RequestedState(s.calls[c]).Some? ==>
      RequestedState(s.calls[c]).value < |s.stateLocks| ==> s.stateLocks[RequestedState(s.calls[c]).value] == None
    ensures CanStep(s, c)
  {
    hide QueueLockOk;
    assert CallOk(s, c);
    match s.calls[c]
    case WaitAsleep(w, _) => assert WaiterOk(s, w);
    case NotifyScan(n, pos) => if pos < |n.snapshot| { SnapshotBounds(s, n, pos); }
    case NotifyMark(n, pos) => SnapshotBounds(s, n, pos);
    case NotifySweep(n, pos, _) => if pos < |n.snapshot| { SnapshotBounds(s, n, pos); }
    case NotifySweepCheck(n, pos, _) => SnapshotBounds(s, n, pos);
    case _ =>
  }

  ghost predicate HoldsALock(s: State, c: nat) {
    c < |s.calls| && (s.queueLock == Some(c) || exists w :: 0 <= w < |s.stateLocks| && s.stateLocks[w] == Some(c))
  }

  /** A call that holds a lock is not parked and not finished. */
  lemma HolderIsActive(s: State, c: nat)
    requires Inv(s) && HoldsALock(s, c)
    ensures !Finished(s.calls[c]) && !s.calls[c].WaitAsleep?
  {
    if w :| 0 <= w < |s.stateLocks| && s.stateLocks[w] == Some(c) { assert WaiterOk(s, w); }
    if s.queueLock == Some(c) { assert QueueLockOk(s); }
  }

  /** Whenever a lock is held, some holder can step. */
  lemma SomeHolderCanStep(s: State, c: nat)
    requires Reachable(s) && HoldsALock(s, c)
    ensures exists d :: HoldsALock(s, d) && CanStep(s, d)
  {
    ReachableInv(s);
    hide Apply, CallOk;
    if w :| 0 <= w < |s.stateLocks| && s.stateLocks[w].Some? {
      assert WaiterOk(s, w);
      var d := s.stateLocks[w].value;
      HolderIsActive(s, d);
      BlockedOnlyByRequest(s, d);
      assert HoldsALock(s, d);
    } else {
      HolderIsActive(s, c);
      assert s.queueLock == Some(c);
      BlockedOnlyByRequest(s, c);
    }
  }

  /** Without any spurious wakeup, in every reachable state some call can step, or every unfinished call is parked
      without a time limit and counted by no notify. */
  lemma NoDeadlock(s: State)
    requires Reachable(s)
    ensures (exists d :: 0 <= d < |s.calls| && CanStep(s, d))
      || forall c :: 0 <= c < |s.calls| && !Finished(s.calls[c]) ==> ParkedForGood(s, c)
  {
    ReachableInv(s);
    hide Apply, CallOk, WaiterOk, CanStep;
    if w :| 0 <= w < |s.stateLocks| && s.stateLocks[w].Some? {
      HolderInRange(s, w);
      SomeHolderCanStep(s, s.stateLocks[w].value);
    } else if s.queueLock.Some? {
      assert QueueLockOk(s);
      SomeHolderCanStep(s, s.queueLock.value);
    } else {
      forall c | 0 <= c < |s.calls| && !Finished(s.calls[c]) && !ParkedForGood(s, c) ensures CanStep(s, c) {
        BlockedOnlyByRequest(s, c);
      }
    }
  }

  lemma HolderInRange(s: State, w: nat)
    requires Inv(s) && w < |s.stateLocks| && s.stateLocks[w].Some?
    ensures HoldsALock(s, s.stateLocks[w].value)
  {
    assert WaiterOk(s, w);
  }
}

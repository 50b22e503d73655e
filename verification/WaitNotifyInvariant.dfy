/** The invariant of the wait/notify step system, proved by what each call relies on from the others. */
module WaitNotifyInvariant {
  import opened Prelude
  import opened WaitNotify

  // ----- the invariant -----

  ghost predicate WaiterOk(s: State, w: nat)
    requires w < |s.waiters| == |s.stateLocks|
  {
    var x := s.waiters[w];
    && x.owner < |s.calls| && WaiterOf(s.calls[x.owner]) == Some(w)
    && (x.notified ==> x.complete)
    && (x.notified <==> x.wokenBy.Some?)
    && (x.wokenBy.Some? ==> x.wokenBy.value < |s.calls|)
    && (x.asleep && x.notified ==> x.woken)
    && (!x.complete ==> x.index in s.queues && w in s.queues[x.index])
    && (s.stateLocks[w].Some? ==> s.stateLocks[w].value < |s.calls| && HeldState(s.calls[s.stateLocks[w].value]) == Some(w))
  }

  ghost predicate QueueOk(s: State, i: nat) {
    i in s.queues ==>
      && s.queues[i] != []
      && Increasing(s.queues[i])
      && forall k :: 0 <= k < |s.queues[i]| ==> s.queues[i][k] < |s.waiters| && s.waiters[s.queues[i][k]].index == i
  }

  ghost predicate AllComplete(s: State, q: seq<nat>) {
    forall k :: 0 <= k < |q| ==> q[k] < |s.waiters| && s.waiters[q[k]].complete
  }

  /** A notify call that holds the queue lock: its snapshot is the queue. */
  ghost predicate Scanning(s: State, n: Notify) {
    n.index in s.queues && s.queues[n.index] == n.snapshot
  }

  ghost predicate Swept(s: State, n: Notify, pos: nat, kept: seq<nat>) {
    && Scanning(s, n)
    && pos <= |n.snapshot|
    && Increasing(kept)
    && (forall k :: 0 <= k < |kept| ==> kept[k] in n.snapshot[..pos])
    && (forall k :: 0 <= k < pos ==> n.snapshot[k] in kept || (n.snapshot[k] < |s.waiters| && s.waiters[n.snapshot[k]].complete))
    && n.woke <= n.limit
    && (n.woke < n.limit ==> AllComplete(s, n.snapshot))
  }

  ghost predicate Pending(s: State, c: nat, w: nat, asleep: bool) {
    && w < |s.waiters| && s.waiters[w].owner == c
    && (s.waiters[w].complete ==> s.waiters[w].notified)
    && s.waiters[w].asleep == asleep
  }

  ghost predicate Settled(s: State, c: nat, w: nat, result: bool) {
    && w < |s.waiters| && s.waiters[w].owner == c
    && s.waiters[w].complete && result == s.waiters[w].notified && !s.waiters[w].asleep
  }

  ghost predicate Unqueued(s: State, w: nat) {
    forall i :: i in s.queues ==> w !in s.queues[i]
  }

  ghost predicate CallOk(s: State, c: nat)
    requires c < |s.calls| && |s.waiters| == |s.stateLocks|
  {
    var p := s.calls[c];
    && (HoldsQueue(p) ==> s.queueLock == Some(c))
    && (HeldState(p).Some? ==> HeldState(p).value < |s.stateLocks| && s.stateLocks[HeldState(p).value] == Some(c))
    && match p
       case WaitLock(w, _) => Pending(s, c, w, false)
       case WaitCheck(w, _) => Pending(s, c, w, false)
       case WaitAsleep(w, _) => Pending(s, c, w, true)
       case WaitLeaveLock(w, r) => Settled(s, c, w, r)
       case WaitLeave(w, r) => Settled(s, c, w, r)
       case WaitDone(w, r) => Settled(s, c, w, r) && Unqueued(s, w)
       case NotifyScan(n, pos) => Scanning(s, n) && pos <= |n.snapshot| && n.woke <= n.limit && AllComplete(s, n.snapshot[..pos])
       case NotifyMark(n, pos) =>
         Scanning(s, n) && pos < |n.snapshot| && n.woke < n.limit && AllComplete(s, n.snapshot[..pos])
       case NotifySweep(n, pos, kept) => Swept(s, n, pos, kept)
       case NotifySweepCheck(n, pos, kept) => Swept(s, n, pos, kept) && pos < |n.snapshot|
       case NotifyDone(n) => n.woke <= n.limit && (n.woke < n.limit ==> AllComplete(s, n.snapshot))
       case _ => true
  }

  ghost predicate QueueLockOk(s: State) {
    s.queueLock.Some? ==> s.queueLock.value < |s.calls| && HoldsQueue(s.calls[s.queueLock.value])
  }

  ghost predicate Inv(s: State) {
    && |s.waiters| == |s.stateLocks|
    && QueueLockOk(s)
    && (forall w :: 0 <= w < |s.waiters| ==> WaiterOk(s, w))
    && (forall i :: QueueOk(s, i))
    && (forall c :: 0 <= c < |s.calls| ==> CallOk(s, c))
  }

  // ----- what a call may rely on while another call steps -----

  predicate WaiterMoves(x: Waiter, y: Waiter, d: nat) {
    && y.index == x.index && y.owner == x.owner
    && (x.complete ==> y.complete && y.notified == x.notified && y.wokenBy == x.wokenBy)
    && (x.owner == d ==> y.asleep == x.asleep && (y.complete && !x.complete ==> y.notified))
  }

  ghost predicate Rely(s: State, t: State, d: nat)
    requires |s.waiters| == |s.stateLocks| && |t.waiters| == |t.stateLocks|
  {
    && d < |s.calls| <= |t.calls| && t.calls[d] == s.calls[d]
    && |s.waiters| <= |t.waiters|
    && (forall w :: 0 <= w < |s.waiters| ==> WaiterMoves(s.waiters[w], t.waiters[w], d))
    && (HoldsQueue(s.calls[d]) ==> t.queues == s.queues && t.queueLock == s.queueLock)
    && (forall w :: 0 <= w < |s.waiters| && s.stateLocks[w] == Some(d) ==> t.stateLocks[w] == Some(d) && t.waiters[w] == s.waiters[w])
    && (forall i :: i in t.queues ==> forall w :: w in t.queues[i] ==> w >= |s.waiters| || (i in s.queues && w in s.queues[i]))
  }

  /** A call's own invariant survives whatever it relies on. */
  lemma CallStable(s: State, t: State, d: nat)
    requires |s.waiters| == |s.stateLocks| && |t.waiters| == |t.stateLocks|
    requires Rely(s, t, d) && CallOk(s, d)
    ensures CallOk(t, d)
  {
    match s.calls[d]
    case NotifyScan(n, pos) => AllCompleteStable(s, t, d, n.snapshot[..pos]);
    case NotifyMark(n, pos) => AllCompleteStable(s, t, d, n.snapshot[..pos]);
    case NotifySweep(n, pos, kept) => SweptStable(s, t, d, n, pos, kept);
    case NotifySweepCheck(n, pos, kept) => SweptStable(s, t, d, n, pos, kept);
    case NotifyDone(n) => if n.woke < n.limit { AllCompleteStable(s, t, d, n.snapshot); }
    case WaitDone(w, _) =>
      assert Unqueued(t, w);
    case _ =>
  }

  lemma AllCompleteStable(s: State, t: State, d: nat, q: seq<nat>)
    requires |s.waiters| == |s.stateLocks| && |t.waiters| == |t.stateLocks|
    requires Rely(s, t, d) && AllComplete(s, q)
    ensures AllComplete(t, q)
  {
    forall k | 0 <= k < |q| ensures q[k] < |t.waiters| && t.waiters[q[k]].complete {
      assert WaiterMoves(s.waiters[q[k]], t.waiters[q[k]], d);
    }
  }

  lemma SweptStable(s: State, t: State, d: nat, n: Notify, pos: nat, kept: seq<nat>)
    requires |s.waiters| == |s.stateLocks| && |t.waiters| == |t.stateLocks|
    requires Rely(s, t, d) && Swept(s, n, pos, kept) && t.queues == s.queues
    ensures Swept(t, n, pos, kept)
  {
    if n.woke < n.limit { AllCompleteStable(s, t, d, n.snapshot); }
    forall k | 0 <= k < pos
      ensures n.snapshot[k] in kept || (n.snapshot[k] < |t.waiters| && t.waiters[n.snapshot[k]].complete)
    {
      if n.snapshot[k] !in kept { assert WaiterMoves(s.waiters[n.snapshot[k]], t.waiters[n.snapshot[k]], d); }
    }
  }

  // ----- the kinds of step -----

  /** The new invariant from the old one, what the acting call did, and what the others rely on. */
  lemma Assembled(s: State, t: State, c: nat)
    requires Inv(s) && c < |s.calls| == |t.calls|
    requires |t.waiters| == |t.stateLocks|
    requires forall d :: 0 <= d < |s.calls| && d != c ==> Rely(s, t, d)
    requires CallOk(t, c) && QueueLockOk(t)
    requires forall w :: 0 <= w < |t.waiters| ==> WaiterOk(t, w)
    requires forall i :: QueueOk(t, i)
    ensures Inv(t)
  {
    hide CallOk, Rely, WaiterOk, QueueOk, QueueLockOk;
    forall d | 0 <= d < |t.calls| && d != c ensures CallOk(t, d) { CallStable(s, t, d); }
  }

  /** What a section under a state lock may write into the waiter. */
  predicate WaiterWrite(s: State, c: nat, x: Waiter, y: Waiter) {
    && y.index == x.index && y.owner == x.owner
    && (x.complete ==> y.complete && y.notified == x.notified && y.wokenBy == x.wokenBy)
    && (x.owner != c ==> y.asleep == x.asleep && (y.complete && !x.complete ==> y.notified))
    && (y.notified ==> y.complete) && (y.notified <==> y.wokenBy.Some?)
    && (y.wokenBy.Some? ==> y.wokenBy.value < |s.calls|)
    && (y.asleep && y.notified ==> y.woken)
  }

  /** A step that takes or releases w's state lock, writing w under it; the queues are untouched. */
  ghost predicate StateSection(s: State, t: State, c: nat, w: nat, p: Call) {
    && c < |s.calls| && w < |s.waiters| == |s.stateLocks|
    && |t.waiters| == |s.waiters| && |t.stateLocks| == |s.stateLocks|
    && t.calls == s.calls[c := p]
    && t.waiters == s.waiters[w := t.waiters[w]]
    && t.stateLocks == s.stateLocks[w := if HeldState(p) == Some(w) then Some(c) else None]
    && t.queues == s.queues && t.queueLock == s.queueLock
    && HoldsQueue(p) == HoldsQueue(s.calls[c]) && WaiterOf(p) == WaiterOf(s.calls[c])
    && (s.stateLocks[w] == None || s.stateLocks[w] == Some(c))
    && HeldState(s.calls[c]) in {None, Some(w)} && HeldState(p) in {None, Some(w)}
    && WaiterWrite(s, c, s.waiters[w], t.waiters[w])
  }

  lemma StateSectionRely(s: State, t: State, c: nat, w: nat, p: Call, d: nat)
    requires Inv(s) && StateSection(s, t, c, w, p) && d < |s.calls| && d != c
    ensures Rely(s, t, d)
  {
    hide WaiterOk, QueueOk, CallOk;
  }

  lemma StateSectionWaiter(s: State, t: State, c: nat, w: nat, p: Call, v: nat)
    requires Inv(s) && StateSection(s, t, c, w, p) && v < |t.waiters|
    ensures WaiterOk(t, v)
  {
    hide QueueOk, CallOk, QueueLockOk;
    assert WaiterOk(s, v);
  }

  lemma StateSectionQueue(s: State, t: State, c: nat, w: nat, p: Call, i: nat)
    requires Inv(s) && StateSection(s, t, c, w, p)
    ensures QueueOk(t, i)
  {
    hide WaiterOk, CallOk, QueueLockOk;
    assert QueueOk(s, i);
  }

  lemma StateSectionKeepsInv(s: State, t: State, c: nat, w: nat, p: Call)
    requires Inv(s) && StateSection(s, t, c, w, p) && CallOk(t, c)
    ensures Inv(t)
  {
    hide WaiterOk, QueueOk, CallOk, Rely;
    forall d | 0 <= d < |s.calls| && d != c ensures Rely(s, t, d) { StateSectionRely(s, t, c, w, p, d); }
    forall v | 0 <= v < |t.waiters| ensures WaiterOk(t, v) { StateSectionWaiter(s, t, c, w, p, v); }
    forall i ensures QueueOk(t, i) { StateSectionQueue(s, t, c, w, p, i); }
    Assembled(s, t, c);
  }

  /** A step that takes the queue lock, or keeps it, and writes nothing. */
  ghost predicate QuietSection(s: State, t: State, c: nat, p: Call) {
    && c < |s.calls|
    && t == s.(calls := s.calls[c := p], queueLock := Some(c))
    && (s.queueLock == None || s.queueLock == Some(c))
    && HoldsQueue(p) && HeldState(p) == None && HeldState(s.calls[c]) == None && WaiterOf(p) == WaiterOf(s.calls[c])
  }

  lemma QuietSectionKeepsInv(s: State, t: State, c: nat, p: Call)
    requires Inv(s) && QuietSection(s, t, c, p) && CallOk(t, c)
    ensures Inv(t)
  {
    hide CallOk, QueueOk, Rely;
    forall d | 0 <= d < |s.calls| && d != c ensures Rely(s, t, d) { QuietSectionRely(s, t, c, p, d); }
    forall v | 0 <= v < |t.waiters| ensures WaiterOk(t, v) { assert WaiterOk(s, v); }
    forall i ensures QueueOk(t, i) { assert QueueOk(s, i); QueueOkSame(s, t, i); }
    Assembled(s, t, c);
  }

  lemma QuietSectionRely(s: State, t: State, c: nat, p: Call, d: nat)
    requires Inv(s) && QuietSection(s, t, c, p) && d < |s.calls| && d != c
    ensures Rely(s, t, d)
  {
    hide WaiterOk, QueueOk;
    assert CallOk(s, d);
  }

  lemma QueueOkSame(s: State, t: State, i: nat)
    requires QueueOk(s, i) && t.queues == s.queues && t.waiters == s.waiters
    ensures QueueOk(t, i)
  {
  }

  /** A step that gives up the queue lock, having taken entries of complete waiters off one queue. */
  ghost predicate ClosingSection(s: State, t: State, c: nat, p: Call) {
    && c < |s.calls| && HoldsQueue(s.calls[c])
    && t == s.(calls := s.calls[c := p], queues := t.queues, queueLock := None)
    && !HoldsQueue(p) && HeldState(p) == None && HeldState(s.calls[c]) == None && WaiterOf(p) == WaiterOf(s.calls[c])
    && (forall i :: QueueOk(t, i))
    && (forall i :: i in t.queues ==> i in s.queues && forall w :: w in t.queues[i] ==> w in s.queues[i])
    && (forall w :: 0 <= w < |s.waiters| ==> !s.waiters[w].complete ==>
          s.waiters[w].index in t.queues && w in t.queues[s.waiters[w].index])
  }

  lemma ClosingSectionRely(s: State, t: State, c: nat, p: Call, d: nat)
    requires Inv(s) && ClosingSection(s, t, c, p) && d < |s.calls| && d != c
    ensures Rely(s, t, d)
  {
    hide WaiterOk, QueueOk;
    assert CallOk(s, d) && CallOk(s, c);
  }

  lemma ClosingSectionKeepsInv(s: State, t: State, c: nat, p: Call)
    requires Inv(s) && ClosingSection(s, t, c, p) && CallOk(t, c)
    ensures Inv(t)
  {
    hide CallOk, QueueOk, Rely;
    forall d | 0 <= d < |s.calls| && d != c ensures Rely(s, t, d) { ClosingSectionRely(s, t, c, p, d); }
    forall v | 0 <= v < |t.waiters| ensures WaiterOk(t, v) { assert WaiterOk(s, v); }
    Assembled(s, t, c);
  }

  // ----- the steps -----

  lemma TakeQueueKeepsInv(s: State, c: nat, p: Call)
    requires Inv(s) && c < |s.calls| && s.queueLock == None
    requires (s.calls[c].WaitStart? && p.WaitEnqueue?) || (s.calls[c].NotifyStart? && p.NotifyLookup?)
          || (s.calls[c].WaitLeaveLock? && p == WaitLeave(s.calls[c].w, s.calls[c].result))
    ensures Inv(TakeQueue(s, c, p).value)
  {
    var t := TakeQueue(s, c, p).value;
    assert CallOk(s, c);
    QuietSectionKeepsInv(s, t, c, p);
  }

  lemma WaitLockKeepsInv(s: State, c: nat)
    requires Inv(s) && c < |s.calls| && s.calls[c].WaitLock? && Advance(s, c, Proceed).Some?
    ensures Inv(Advance(s, c, Proceed).value)
  {
    var w := s.calls[c].w;
    var t := Advance(s, c, Proceed).value;
    assert CallOk(s, c) && WaiterOk(s, w);
    StateSectionKeepsInv(s, t, c, w, WaitCheck(w, s.calls[c].timed));
  }

  lemma WakeUpKeepsInv(s: State, c: nat, choice: Choice)
    requires Inv(s) && c < |s.calls| && s.calls[c].WaitAsleep? && Advance(s, c, choice).Some?
    ensures Inv(Advance(s, c, choice).value)
  {
    var w := s.calls[c].w;
    var t := Advance(s, c, choice).value;
    assert CallOk(s, c) && WaiterOk(s, w);
    StateSectionKeepsInv(s, t, c, w, WaitCheck(w, s.calls[c].timed));
  }

  lemma CheckConditionKeepsInv(s: State, c: nat, choice: Choice)
    requires Inv(s) && c < |s.calls| && s.calls[c].WaitCheck? && Advance(s, c, choice).Some?
    ensures Inv(Advance(s, c, choice).value)
  {
    var w := s.calls[c].w;
    var t := Advance(s, c, choice).value;
    assert CallOk(s, c) && WaiterOk(s, w);
    StateSectionKeepsInv(s, t, c, w, t.calls[c]);
  }

  lemma SnapshotBounds(s: State, n: Notify, pos: nat)
    requires Inv(s) && Scanning(s, n) && pos < |n.snapshot|
    ensures n.snapshot[pos] < |s.waiters|
  {
    assert QueueOk(s, n.index);
  }

  lemma ScanKeepsInv(s: State, c: nat)
    requires Inv(s) && c < |s.calls| && s.calls[c].NotifyScan? && Advance(s, c, Proceed).Some?
    ensures Inv(Advance(s, c, Proceed).value)
  {
    var NotifyScan(n, pos) := s.calls[c];
    var t := Advance(s, c, Proceed).value;
    assert CallOk(s, c);
    if pos >= |n.snapshot| || n.woke >= n.limit {
      assert n.snapshot[..|n.snapshot|] == n.snapshot;
      QuietSectionKeepsInv(s, t, c, NotifySweep(n, 0, []));
    } else {
      SnapshotBounds(s, n, pos);
      assert WaiterOk(s, n.snapshot[pos]);
      StateSectionKeepsInv(s, t, c, n.snapshot[pos], NotifyMark(n, pos));
    }
  }

  lemma AllCompleteExtends(s: State, t: State, q: seq<nat>, pos: nat)
    requires pos < |q| && AllComplete(s, q[..pos])
    requires |t.waiters| >= |s.waiters|
    requires forall w :: 0 <= w < |s.waiters| ==> s.waiters[w].complete ==> t.waiters[w].complete
    requires q[pos] < |t.waiters| && t.waiters[q[pos]].complete
    ensures AllComplete(t, q[..pos + 1])
  {
    var r := q[..pos + 1];
    forall k | 0 <= k < |r| ensures r[k] < |t.waiters| && t.waiters[r[k]].complete {
      if k < pos { assert q[..pos][k] == q[k]; }
    }
  }

  lemma MarkKeepsInv(s: State, c: nat)
    requires Inv(s) && c < |s.calls| && s.calls[c].NotifyMark? && Advance(s, c, Proceed).Some?
    ensures Inv(Advance(s, c, Proceed).value)
  {
    var NotifyMark(n, pos) := s.calls[c];
    var t := Advance(s, c, Proceed).value;
    var w := n.snapshot[pos];
    assert CallOk(s, c);
    SnapshotBounds(s, n, pos);
    assert WaiterOk(s, w);
    AllCompleteExtends(s, t, n.snapshot, pos);
    StateSectionKeepsInv(s, t, c, w, t.calls[c]);
  }

  lemma SweepLockKeepsInv(s: State, c: nat)
    requires Inv(s) && c < |s.calls| && s.calls[c].NotifySweep? && Advance(s, c, Proceed).Some?
    requires s.calls[c].pos < |s.calls[c].n.snapshot|
    ensures Inv(Advance(s, c, Proceed).value)
  {
    var NotifySweep(n, pos, kept) := s.calls[c];
    var t := Advance(s, c, Proceed).value;
    assert CallOk(s, c);
    SnapshotBounds(s, n, pos);
    assert WaiterOk(s, n.snapshot[pos]);
    StateSectionKeepsInv(s, t, c, n.snapshot[pos], NotifySweepCheck(n, pos, kept));
  }

  lemma SweptExtends(s: State, n: Notify, pos: nat, kept: seq<nat>)
    requires Inv(s) && Swept(s, n, pos, kept) && pos < |n.snapshot|
    ensures var w := n.snapshot[pos];
            w < |s.waiters| && Swept(s, n, pos + 1, if s.waiters[w].complete then kept else kept + [w])
  {
    SnapshotBounds(s, n, pos);
    assert QueueOk(s, n.index);
    var w := n.snapshot[pos];
    var kept' := if s.waiters[w].complete then kept else kept + [w];
    assert n.snapshot[..pos + 1] == n.snapshot[..pos] + [w];
    forall k | 0 <= k < |kept| ensures kept[k] < w {
      var j :| 0 <= j < pos && n.snapshot[..pos][j] == kept[k];
      assert n.snapshot[j] < n.snapshot[pos];
    }
    forall k | 0 <= k < pos + 1
      ensures n.snapshot[k] in kept' || (n.snapshot[k] < |s.waiters| && s.waiters[n.snapshot[k]].complete)
    {
      if k < pos && n.snapshot[k] in kept { assert n.snapshot[k] in kept'; }
    }
  }

  lemma SweptSame(s: State, t: State, n: Notify, pos: nat, kept: seq<nat>)
    requires Swept(s, n, pos, kept) && t.waiters == s.waiters && t.queues == s.queues
    ensures Swept(t, n, pos, kept)
  {
  }

  lemma SweepCheckKeepsInv(s: State, c: nat)
    requires Inv(s) && c < |s.calls| && s.calls[c].NotifySweepCheck? && Advance(s, c, Proceed).Some?
    ensures Inv(Advance(s, c, Proceed).value)
  {
    hide Swept, QueueOk, QueueLockOk;
    var NotifySweepCheck(n, pos, kept) := s.calls[c];
    var w := n.snapshot[pos];
    assert CallOk(s, c);
    SweptExtends(s, n, pos, kept);
    assert WaiterOk(s, w);
    var kept' := if s.waiters[w].complete then kept else kept + [w];
    var p := NotifySweep(n, pos + 1, kept');
    var t := ReleaseState(s, c, w, s.waiters[w], p).value;
    assert t == Advance(s, c, Proceed).value;
    assert t.waiters == s.waiters;
    SweptSame(s, t, n, pos + 1, kept');
    assert CallOk(t, c);
    assert StateSection(s, t, c, w, p);
    hide CallOk, StateSection, WaiterOk, Inv;
    StateSectionKeepsInv(s, t, c, w, p);
  }

  lemma StoredQueueOk(s: State, t: State, index: nat, q: seq<nat>)
    requires Inv(s) && t.waiters == s.waiters && index in s.queues
    requires t.queues == StoreQueue(s.queues, index, q)
    requires Increasing(q) && forall k :: 0 <= k < |q| ==> q[k] in s.queues[index]
    ensures forall i :: QueueOk(t, i)
  {
    forall i ensures QueueOk(t, i) {
      assert QueueOk(s, i) && QueueOk(s, index);
    }
  }

  lemma StoredQueueHolds(s: State, index: nat, q: seq<nat>, w: nat)
    requires Inv(s) && index in s.queues && w < |s.waiters| && !s.waiters[w].complete
    requires s.waiters[w].index == index ==> w in q
    ensures var queues := StoreQueue(s.queues, index, q);
            s.waiters[w].index in queues && w in queues[s.waiters[w].index]
  {
    assert WaiterOk(s, w);
  }

  lemma SweepEndKeepsInv(s: State, c: nat)
    requires Inv(s) && c < |s.calls| && s.calls[c].NotifySweep? && Advance(s, c, Proceed).Some?
    requires s.calls[c].pos >= |s.calls[c].n.snapshot|
    ensures Inv(Advance(s, c, Proceed).value)
  {
    var NotifySweep(n, pos, kept) := s.calls[c];
    var t := Advance(s, c, Proceed).value;
    assert CallOk(s, c);
    StoredQueueOk(s, t, n.index, kept);
    forall w | 0 <= w < |s.waiters| && !s.waiters[w].complete
      ensures s.waiters[w].index in t.queues && w in t.queues[s.waiters[w].index]
    {
      assert WaiterOk(s, w);
      StoredQueueHolds(s, n.index, kept, w);
    }
    ClosingSectionKeepsInv(s, t, c, NotifyDone(n));
  }

  lemma {:induction false} WithoutProperties(q: seq<nat>, w: nat)
    requires Increasing(q)
    ensures Increasing(Without(q, w))
    ensures forall v :: v in Without(q, w) <==> v in q && v != w
  {
    if q != [] {
      WithoutProperties(q[1..], w);
      var rest := Without(q[1..], w);
      assert forall v :: v in q <==> v == q[0] || v in q[1..];
      if q[0] != w {
        assert forall k :: 0 <= k < |rest| ==> rest[k] in q[1..];
        assert forall k :: 0 <= k < |rest| ==> q[0] < rest[k];
      }
    }
  }

  lemma LeaveKeepsInv(s: State, c: nat)
    requires Inv(s) && c < |s.calls| && s.calls[c].WaitLeave? && Advance(s, c, Proceed).Some?
    ensures Inv(Advance(s, c, Proceed).value)
  {
    var WaitLeave(w, result) := s.calls[c];
    var t := Advance(s, c, Proceed).value;
    var index := s.waiters[w].index;
    assert CallOk(s, c) && QueueOk(s, index);
    if index in s.queues {
      var q := Without(s.queues[index], w);
      WithoutProperties(s.queues[index], w);
      StoredQueueOk(s, t, index, q);
      forall v | 0 <= v < |s.waiters| && !s.waiters[v].complete
        ensures s.waiters[v].index in t.queues && v in t.queues[s.waiters[v].index]
      {
        assert WaiterOk(s, v);
        StoredQueueHolds(s, index, q, v);
      }
    } else {
      forall i ensures QueueOk(t, i) { assert QueueOk(s, i); QueueOkSame(s, t, i); }
      forall v | 0 <= v < |s.waiters| && !s.waiters[v].complete
        ensures s.waiters[v].index in t.queues && v in t.queues[s.waiters[v].index]
      {
        assert WaiterOk(s, v);
      }
    }
    LeftUnqueued(s, t, w);
    ClosingSectionKeepsInv(s, t, c, WaitDone(w, result));
  }

  lemma LeftUnqueued(s: State, t: State, w: nat)
    requires Inv(s) && w < |s.waiters|
    requires var index := s.waiters[w].index;
             t.queues == if index in s.queues then StoreQueue(s.queues, index, Without(s.queues[index], w)) else s.queues
    ensures Unqueued(t, w)
  {
    forall i | i in t.queues ensures w !in t.queues[i] {
      assert QueueOk(s, i);
      if i == s.waiters[w].index { WithoutProperties(s.queues[i], w); }
    }
  }

  lemma LookupKeepsInv(s: State, c: nat)
    requires Inv(s) && c < |s.calls| && s.calls[c].NotifyLookup? && Advance(s, c, Proceed).Some?
    ensures Inv(Advance(s, c, Proceed).value)
  {
    var NotifyLookup(index, count) := s.calls[c];
    var t := Advance(s, c, Proceed).value;
    assert CallOk(s, c);
    if index in s.queues {
      QuietSectionKeepsInv(s, t, c, t.calls[c]);
    } else {
      forall i ensures QueueOk(t, i) { assert QueueOk(s, i); QueueOkSame(s, t, i); }
      forall v | 0 <= v < |s.waiters| && !s.waiters[v].complete
        ensures s.waiters[v].index in t.queues && v in t.queues[s.waiters[v].index]
      {
        assert WaiterOk(s, v);
      }
      ClosingSectionKeepsInv(s, t, c, NotifyNone(index));
    }
  }

  lemma EnqueueRely(s: State, c: nat, index: nat, timed: bool, d: nat)
    requires Inv(s) && c < |s.calls| && s.calls[c] == WaitEnqueue(index, timed) && d < |s.calls| && d != c
    ensures Rely(s, Enqueue(s, c, index, timed), d)
  {
    hide WaiterOk, QueueOk;
    assert CallOk(s, d) && CallOk(s, c);
  }

  lemma EnqueueQueue(s: State, c: nat, index: nat, timed: bool, i: nat)
    requires Inv(s) && c < |s.calls|
    ensures QueueOk(Enqueue(s, c, index, timed), i)
  {
    hide WaiterOk, CallOk, QueueLockOk;
    assert QueueOk(s, i);
  }

  lemma EnqueueWaiter(s: State, c: nat, index: nat, timed: bool, v: nat)
    requires Inv(s) && c < |s.calls| && s.calls[c] == WaitEnqueue(index, timed) && v <= |s.waiters|
    ensures WaiterOk(Enqueue(s, c, index, timed), v)
  {
    hide QueueOk, CallOk, QueueLockOk;
    if v < |s.waiters| { assert WaiterOk(s, v); }
  }

  lemma EnqueueKeepsInv(s: State, c: nat)
    requires Inv(s) && c < |s.calls| && s.calls[c].WaitEnqueue?
    ensures Inv(Advance(s, c, Proceed).value)
  {
    var WaitEnqueue(index, timed) := s.calls[c];
    var t := Enqueue(s, c, index, timed);
    assert CallOk(t, c);
    hide CallOk, WaiterOk, QueueOk, Rely;
    forall d | 0 <= d < |s.calls| && d != c ensures Rely(s, t, d) { EnqueueRely(s, c, index, timed, d); }
    forall v | 0 <= v < |t.waiters| ensures WaiterOk(t, v) { EnqueueWaiter(s, c, index, timed, v); }
    forall i ensures QueueOk(t, i) { EnqueueQueue(s, c, index, timed, i); }
    Assembled(s, t, c);
  }

  lemma BeginKeepsInv(s: State, p: Call)
    requires Inv(s) && (p.WaitStart? || p.NotifyStart?)
    ensures Inv(s.(calls := s.calls + [p]))
  {
    var t := s.(calls := s.calls + [p]);
    forall w | 0 <= w < |t.waiters| ensures WaiterOk(t, w) { assert WaiterOk(s, w); }
    forall i ensures QueueOk(t, i) { assert QueueOk(s, i); QueueOkSame(s, t, i); }
    forall c | 0 <= c < |t.calls| ensures CallOk(t, c) {
      if c < |s.calls| {
        assert Rely(s, t, c);
        CallStable(s, t, c);
      }
    }
  }

  lemma AdvanceKeepsInv(s: State, c: nat, choice: Choice)
    requires Inv(s) && c < |s.calls| && Advance(s, c, choice).Some?
    ensures Inv(Advance(s, c, choice).value)
  {
    hide Inv, TakeState, ReleaseState, Mark, SweepCheck, Leave, Lookup, Enqueue, WakeUp, CheckCondition;
    match s.calls[c]
    case WaitStart(index, timed) => TakeQueueKeepsInv(s, c, WaitEnqueue(index, timed));
    case WaitEnqueue(_, _) => EnqueueKeepsInv(s, c);
    case WaitLock(_, _) => WaitLockKeepsInv(s, c);
    case WaitCheck(_, _) => CheckConditionKeepsInv(s, c, choice);
    case WaitAsleep(_, _) => WakeUpKeepsInv(s, c, choice);
    case WaitLeaveLock(w, result) => TakeQueueKeepsInv(s, c, WaitLeave(w, result));
    case WaitLeave(_, _) => LeaveKeepsInv(s, c);
    case NotifyStart(index, count) => TakeQueueKeepsInv(s, c, NotifyLookup(index, count));
    case NotifyLookup(_, _) => LookupKeepsInv(s, c);
    case NotifyScan(_, _) => ScanKeepsInv(s, c);
    case NotifyMark(_, _) => MarkKeepsInv(s, c);
    case NotifySweep(n, pos, _) =>
      if pos < |n.snapshot| { SweepLockKeepsInv(s, c); } else { SweepEndKeepsInv(s, c); }
    case NotifySweepCheck(_, _, _) => SweepCheckKeepsInv(s, c);
  }

  lemma ApplyKeepsInv(s: State, e: Event)
    requires Inv(s) && Apply(s, e).Some?
    ensures Inv(Apply(s, e).value)
  {
    hide Inv;
    match e
    case BeginWait(index, timed) => BeginKeepsInv(s, WaitStart(index, timed));
    case BeginNotify(index, count) => BeginKeepsInv(s, NotifyStart(index, count));
    case Act(c, choice) => AdvanceKeepsInv(s, c, choice);
  }

  lemma {:induction false} RunKeepsInv(s: State, events: seq<Event>)
    requires Inv(s) && ApplyAll(s, events).Some?
    ensures Inv(ApplyAll(s, events).value)
    decreases |events|
  {
    hide Inv, Apply;
    if events != [] {
      ApplyKeepsInv(s, events[0]);
      RunKeepsInv(Apply(s, events[0]).value, events[1..]);
    }
  }

  /** The invariant holds after every interleaving of waits, timeouts and notifies. */
  lemma ReachableInv(s: State)
    requires Reachable(s)
    ensures Inv(s)
  {
    var events :| ApplyAll(INITIAL, events) == Some(s);
    assert Inv(INITIAL);
    RunKeepsInv(INITIAL, events);
  }
}

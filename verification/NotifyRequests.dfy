/** What a notify does with the count its caller asked for, over every run. */
module NotifyRequests {
  import opened Prelude
  import opened WaitNotify
  import opened WaitNotifyInvariant

  function QueueAt(s: State, i: nat): seq<nat> {
    if i in s.queues then s.queues[i] else []
  }

  /** How many waiters a request may wake at most, of a queue of that length. */
  function Bound(count: Option<nat>, length: nat): nat {
    if count.Some? then count.value else length
  }

  /** A notify past its lookup works on that queue, within the count asked for. */
  predicate WorksOn(n: Notify, i: nat, count: Option<nat>, q: seq<nat>) {
    n.index == i && n.snapshot == q && n.limit == Bound(count, |q|)
  }

  /** Call c serves a request to notify index i, and q is the queue there from the time it takes the queue lock on. */
  ghost predicate Serves(s: State, c: nat, i: nat, count: Option<nat>, q: seq<nat>) {
    c < |s.calls| &&
    match s.calls[c]
    case NotifyLookup(j, k) => j == i && k == count && QueueAt(s, i) == q
    case NotifyScan(n, pos) => WorksOn(n, i, count, q) && n.woke <= pos
    case NotifyMark(n, pos) => WorksOn(n, i, count, q) && n.woke <= pos
    case NotifySweep(n, _, _) => WorksOn(n, i, count, q) && (n.woke >= |q| ==> AllComplete(s, q))
    case NotifySweepCheck(n, _, _) => WorksOn(n, i, count, q) && (n.woke >= |q| ==> AllComplete(s, q))
    case NotifyDone(n) => WorksOn(n, i, count, q) && (n.woke >= |q| ==> AllComplete(s, q))
    case NotifyNone(j) => j == i && q == []
    case _ => false
  }

  /** The request of call c, from its beginning on. */
  ghost predicate Requested(s: State, c: nat, i: nat, count: Option<nat>) {
    c < |s.calls| && (s.calls[c] == NotifyStart(i, count) || exists q :: Serves(s, c, i, count, q))
  }

  // ----- steps -----

  /** Complete waiters stay complete. */
  lemma CompleteStays(s: State, c: nat, choice: Choice)
    requires Inv(s) && c < |s.calls| && Advance(s, c, choice).Some?
    ensures var t := Advance(s, c, choice).value;
      |s.waiters| <= |t.waiters| && forall w :: 0 <= w < |s.waiters| && s.waiters[w].complete ==> t.waiters[w].complete
  {
    hide WaiterOk, QueueOk, CallOk, QueueLockOk;
  }

  /** Another call's step leaves call c alone, and the queues too while c holds their lock. */
  lemma OthersStep(s: State, c: nat, d: nat, choice: Choice)
    requires Inv(s) && c < |s.calls| && d < |s.calls| && d != c && Advance(s, d, choice).Some?
    ensures var t := Advance(s, d, choice).value;
      |t.calls| == |s.calls| && t.calls[c] == s.calls[c] && (HoldsQueue(s.calls[c]) ==> t.queues == s.queues)
  {
    hide WaiterOk, QueueOk, QueueLockOk;
    assert CallOk(s, c) && CallOk(s, d);
  }

  lemma OthersServe(s: State, t: State, c: nat, i: nat, count: Option<nat>, q: seq<nat>)
    requires Serves(s, c, i, count, q) && c < |t.calls| && t.calls[c] == s.calls[c]
    requires HoldsQueue(s.calls[c]) ==> t.queues == s.queues
    requires |s.waiters| <= |t.waiters|
    requires forall w :: 0 <= w < |s.waiters| && s.waiters[w].complete ==> t.waiters[w].complete
    ensures Serves(t, c, i, count, q)
  {
  }

  lemma OwnStepServes(s: State, c: nat, choice: Choice, i: nat, count: Option<nat>, q: seq<nat>)
    requires Inv(s) && Serves(s, c, i, count, q) && Advance(s, c, choice).Some?
    ensures Serves(Advance(s, c, choice).value, c, i, count, q)
  {
    hide WaiterOk, QueueOk, QueueLockOk, Swept;
    CompleteStays(s, c, choice);
    assert CallOk(s, c);
    if s.calls[c].NotifyScan? {
      var n, pos := s.calls[c].n, s.calls[c].pos;
      if n.woke >= |q| { assert n.snapshot[..pos] == q; }
    }
  }

  lemma StepServes(s: State, e: Event, c: nat, i: nat, count: Option<nat>, q: seq<nat>)
    requires Inv(s) && Serves(s, c, i, count, q) && Apply(s, e).Some?
    ensures Serves(Apply(s, e).value, c, i, count, q)
  {
    hide Inv, Advance, Serves;
    assert c < |s.calls| by { ServesInRange(s, c, i, count, q); }
    if e.Act? && e.call != c {
      CompleteStays(s, e.call, e.choice);
      OthersStep(s, c, e.call, e.choice);
      OthersServe(s, Apply(s, e).value, c, i, count, q);
    } else if e.Act? {
      OwnStepServes(s, c, e.choice, i, count, q);
    } else {
      OthersServe(s, Apply(s, e).value, c, i, count, q);
    }
  }

  lemma ServesInRange(s: State, c: nat, i: nat, count: Option<nat>, q: seq<nat>)
    requires Serves(s, c, i, count, q)
    ensures c < |s.calls|
  {
  }

  lemma {:induction false} RunServes(s: State, events: seq<Event>, c: nat, i: nat, count: Option<nat>, q: seq<nat>)
    requires Inv(s) && Serves(s, c, i, count, q) && ApplyAll(s, events).Some?
    ensures Inv(ApplyAll(s, events).value) && Serves(ApplyAll(s, events).value, c, i, count, q)
    decreases |events|
  {
    hide Inv, Apply, Serves;
    if events != [] {
      ApplyKeepsInv(s, events[0]);
      StepServes(s, events[0], c, i, count, q);
      RunServes(Apply(s, events[0]).value, events[1..], c, i, count, q);
    }
  }

  /** Before the queue lock is taken the request only waits for it. */
  lemma StepRequested(s: State, e: Event, c: nat, i: nat, count: Option<nat>)
    requires Inv(s) && Requested(s, c, i, count) && Apply(s, e).Some?
    ensures Requested(Apply(s, e).value, c, i, count)
  {
    hide Inv, Serves;
    var t := Apply(s, e).value;
    if s.calls[c] == NotifyStart(i, count) {
      if e.Act? && e.call == c {
        assert t.calls[c] == NotifyLookup(i, count);
        assert Serves(t, c, i, count, QueueAt(t, i)) by { LookupServes(t, c, i, count); }
      } else if e.Act? {
        OthersStep(s, c, e.call, e.choice);
      }
    } else {
      var q :| Serves(s, c, i, count, q);
      StepServes(s, e, c, i, count, q);
    }
  }

  lemma LookupServes(s: State, c: nat, i: nat, count: Option<nat>)
    requires c < |s.calls| && s.calls[c] == NotifyLookup(i, count)
    ensures Serves(s, c, i, count, QueueAt(s, i))
  {
  }

  lemma {:induction false} RunRequested(s: State, events: seq<Event>, c: nat, i: nat, count: Option<nat>)
    requires Inv(s) && Requested(s, c, i, count) && ApplyAll(s, events).Some?
    ensures Inv(ApplyAll(s, events).value) && Requested(ApplyAll(s, events).value, c, i, count)
    decreases |events|
  {
    hide Inv, Apply, Requested;
    if events != [] {
      ApplyKeepsInv(s, events[0]);
      StepRequested(s, events[0], c, i, count);
      RunRequested(Apply(s, events[0]).value, events[1..], c, i, count);
    }
  }

  // ----- what the caller asked for -----

  lemma Begun(s: State, i: nat, count: Option<nat>, events: seq<Event>)
    requires Inv(s) && ApplyAll(s, [BeginNotify(i, count)] + events).Some?
    ensures var t := ApplyAll(s, [BeginNotify(i, count)] + events).value; Inv(t) && Requested(t, |s.calls|, i, count)
  {
    hide Inv;
    var run := [BeginNotify(i, count)] + events;
    assert run[1..] == events;
    var s' := Apply(s, run[0]).value;
    ApplyKeepsInv(s, run[0]);
    assert s'.calls[|s.calls|] == NotifyStart(i, count);
    RunRequested(s', events, |s.calls|, i, count);
  }

  /** A notify that was asked to wake at most k never counts more, in any later state. */
  lemma NeverMoreThanAsked(s: State, i: nat, k: nat, events: seq<Event>)
    requires Reachable(s) && ApplyAll(s, [BeginNotify(i, Some(k))] + events).Some?
    ensures var t := ApplyAll(s, [BeginNotify(i, Some(k))] + events).value;
      |s.calls| < |t.calls| && Counted(t.calls[|s.calls|]) <= k
  {
    ReachableInv(s);
    Begun(s, i, Some(k), events);
    var t, c := ApplyAll(s, [BeginNotify(i, Some(k))] + events).value, |s.calls|;
    hide WaiterOk, QueueOk, QueueLockOk, ApplyAll, Reachable;
    assert CallOk(t, c);
    if t.calls[c] != NotifyStart(i, Some(k)) {
      var q :| Serves(t, c, i, Some(k), q);
    }
  }

  predicate Finished(p: Call) {
    p.NotifyDone? || p.NotifyNone?
  }

  /** The request goes on in events from the state where its call holds the queue lock, and ends finished. */
  ghost predicate Served(u: State, c: nat, i: nat, count: Option<nat>, events: seq<Event>) {
    && Reachable(u) && c < |u.calls| && u.calls[c] == NotifyLookup(i, count)
    && ApplyAll(u, events).Some? && c < |ApplyAll(u, events).value.calls| && Finished(ApplyAll(u, events).value.calls[c])
  }

  /** A finished notify that was asked for all, or counted fewer than it was asked for, leaves every waiter complete
      that stood in the queue at its index when it took the queue lock. */
  lemma WakesAsAsked(u: State, c: nat, i: nat, count: Option<nat>, events: seq<Event>)
    requires Served(u, c, i, count, events)
    ensures var t := ApplyAll(u, events).value;
      count.None? || Counted(t.calls[c]) < count.value ==> AllComplete(t, QueueAt(u, i))
  {
    hide ApplyAll, Reachable, WaiterOk, QueueOk, QueueLockOk;
    ReachableInv(u);
    var q := QueueAt(u, i);
    LookupServes(u, c, i, count);
    RunServes(u, events, c, i, count, q);
    var t := ApplyAll(u, events).value;
    assert CallOk(t, c);
  }

  /** Such a queue holds every waiter of the index that was not yet complete. */
  lemma WakesEveryWaiter(u: State, c: nat, i: nat, count: Option<nat>, events: seq<Event>, w: nat)
    requires Served(u, c, i, count, events)
    requires w < |u.waiters| && u.waiters[w].index == i && !u.waiters[w].complete
    ensures var t := ApplyAll(u, events).value;
      count.None? || Counted(t.calls[c]) < count.value ==> w < |t.waiters| && t.waiters[w].complete
  {
    hide ApplyAll, Reachable, QueueOk, QueueLockOk, CallOk;
    WakesAsAsked(u, c, i, count, events);
    ReachableInv(u);
    assert WaiterOk(u, w);
    var k :| 0 <= k < |QueueAt(u, i)| && QueueAt(u, i)[k] == w;
  }
}

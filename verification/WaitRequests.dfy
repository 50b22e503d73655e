/** What a wait does with the index and the timeout its caller asked for, over every run. */
module WaitRequests {
  import opened Prelude
  import opened WaitNotify
  import opened WaitNotifyInvariant
  import N = NotifyRequests

  /** The waiter that a wait call has enqueued stands at that index. */
  predicate StandsAt(s: State, w: nat, i: nat) {
    w < |s.waiters| && s.waiters[w].index == i
  }

  /** Call c serves a request to wait at index i; up says whether its time has been up yet. */
  predicate Waits(s: State, c: nat, i: nat, timed: bool, up: bool) {
    c < |s.calls| &&
    match s.calls[c]
    case WaitStart(j, k) => j == i && k == timed
    case WaitEnqueue(j, k) => j == i && k == timed
    case WaitLock(w, k) => StandsAt(s, w, i) && k == timed
    case WaitCheck(w, k) => StandsAt(s, w, i) && k == timed
    case WaitAsleep(w, k) => StandsAt(s, w, i) && k == timed
    case WaitLeaveLock(w, r) => StandsAt(s, w, i) && (r || (timed && up))
    case WaitLeave(w, r) => StandsAt(s, w, i) && (r || (timed && up))
    case WaitDone(w, r) => StandsAt(s, w, i) && (r || (timed && up))
    case _ => false
  }

  // ----- steps -----

  /** A waiter keeps its index. */
  lemma IndexStays(s: State, d: nat, choice: Choice)
    requires |s.waiters| == |s.stateLocks| && d < |s.calls| && Advance(s, d, choice).Some?
    ensures var t := Advance(s, d, choice).value;
      |s.waiters| <= |t.waiters| && forall w :: 0 <= w < |s.waiters| ==> t.waiters[w].index == s.waiters[w].index
  {
    hide StoreQueue, Without, MayWake;
  }

  lemma OwnStepWaits(s: State, c: nat, choice: Choice, i: nat, timed: bool, up: bool)
    requires Inv(s) && Waits(s, c, i, timed, up) && Advance(s, c, choice).Some?
    ensures Waits(Advance(s, c, choice).value, c, i, timed, up || choice == TimeOut)
  {
    hide WaiterOk, QueueOk, QueueLockOk, CallOk;
    IndexStays(s, c, choice);
  }

  lemma StepWaits(s: State, e: Event, c: nat, i: nat, timed: bool, up: bool)
    requires Inv(s) && Waits(s, c, i, timed, up) && Apply(s, e).Some?
    ensures Waits(Apply(s, e).value, c, i, timed, up || e == Act(c, TimeOut))
  {
    hide WaiterOk, QueueOk, QueueLockOk, CallOk, Advance;
    if e.Act? {
      IndexStays(s, e.call, e.choice);
      if e.call == c { OwnStepWaits(s, c, e.choice, i, timed, up); } else { N.OthersStep(s, c, e.call, e.choice); }
    }
  }

  lemma {:induction false} RunWaits(s: State, events: seq<Event>, c: nat, i: nat, timed: bool, up: bool)
    requires Inv(s) && Waits(s, c, i, timed, up) && ApplyAll(s, events).Some?
    ensures Inv(ApplyAll(s, events).value)
    ensures Waits(ApplyAll(s, events).value, c, i, timed, up || Act(c, TimeOut) in events)
    decreases |events|
  {
    hide Inv, Apply, Waits;
    if events != [] {
      ApplyKeepsInv(s, events[0]);
      StepWaits(s, events[0], c, i, timed, up);
      RunWaits(Apply(s, events[0]).value, events[1..], c, i, timed, up || events[0] == Act(c, TimeOut));
      assert Act(c, TimeOut) in events <==> events[0] == Act(c, TimeOut) || Act(c, TimeOut) in events[1..] by {
        assert events == [events[0]] + events[1..];
      }
    }
  }

  // ----- what the caller asked for -----

  /** The result a wait call has come to. */
  function Answer(p: Call): Option<bool> {
    match p
    case WaitLeaveLock(_, r) => Some(r)
    case WaitLeave(_, r) => Some(r)
    case WaitDone(_, r) => Some(r)
    case _ => None
  }

  /** In every later state the waiter of a wait stands at the index asked for, and only a wait that was given a timeout,
      and whose time has been up, comes to false. */
  lemma FailsOnlyWhenTimeIsUp(s: State, i: nat, timed: bool, events: seq<Event>)
    requires Reachable(s) && ApplyAll(s, [BeginWait(i, timed)] + events).Some?
    ensures var t, c := ApplyAll(s, [BeginWait(i, timed)] + events).value, |s.calls|;
      && c < |t.calls|
      && (WaiterOf(t.calls[c]).Some? ==> StandsAt(t, WaiterOf(t.calls[c]).value, i))
      && (Answer(t.calls[c]) == Some(false) ==> timed && Act(c, TimeOut) in events)
  {
    hide Reachable;
    ReachableInv(s);
    var run, c := [BeginWait(i, timed)] + events, |s.calls|;
    assert run[1..] == events;
    ApplyKeepsInv(s, run[0]);
    RunWaits(Apply(s, run[0]).value, events, c, i, timed, false);
  }

  // ----- wakeups -----

  /** A waiter parked on its condvar has been signalled only if it was notified. */
  ghost predicate SignalsAreNotices(s: State) {
    forall w :: 0 <= w < |s.waiters| && s.waiters[w].asleep && s.waiters[w].woken ==> s.waiters[w].notified
  }

  lemma StepKeepsSignals(s: State, e: Event)
    requires SignalsAreNotices(s) && Apply(s, e).Some?
    ensures SignalsAreNotices(Apply(s, e).value)
  {
  }

  lemma {:induction false} RunKeepsSignals(s: State, events: seq<Event>)
    requires SignalsAreNotices(s) && ApplyAll(s, events).Some?
    ensures SignalsAreNotices(ApplyAll(s, events).value)
    decreases |events|
  {
    hide SignalsAreNotices, Apply;
    if events != [] {
      StepKeepsSignals(s, events[0]);
      RunKeepsSignals(Apply(s, events[0]).value, events[1..]);
    }
  }

  lemma SignalsInReach(s: State)
    requires Reachable(s)
    ensures SignalsAreNotices(s)
  {
    var events :| ApplyAll(INITIAL, events) == Some(s);
    RunKeepsSignals(INITIAL, events);
  }

  /** The call is parked, and its state lock is free. */
  predicate Parked(s: State, c: nat, w: nat, timed: bool) {
    && c < |s.calls| && s.calls[c] == WaitAsleep(w, timed)
    && w < |s.waiters| && w < |s.stateLocks| && s.stateLocks[w].None?
  }

  /** The state once the waiter has woken and holds its state lock again. */
  function Awoken(s: State, c: nat, w: nat, timed: bool): State
    requires Parked(s, c, w, timed)
  {
    s.(calls := s.calls[c := WaitCheck(w, timed)],
       waiters := s.waiters[w := s.waiters[w].(asleep := false)],
       stateLocks := s.stateLocks[w := Some(c)])
  }

  lemma WakeStep(s: State, c: nat, w: nat, timed: bool, choice: Choice)
    requires Parked(s, c, w, timed) && MayWake(s.waiters[w], timed, choice)
    ensures Apply(s, Act(c, choice)) == Some(Awoken(s, c, w, timed))
  {
  }

  lemma CheckStep(s: State, c: nat, w: nat, timed: bool, choice: Choice)
    requires c < |s.calls| && s.calls[c] == WaitCheck(w, timed)
    ensures Apply(s, Act(c, choice)) == CheckCondition(s, c, w, timed, choice)
  {
    hide CheckCondition;
  }

  /** A spurious wakeup of a waiter that was not notified leads back to the very same state. */
  lemma SpuriousWakeupsChangeNothing(s: State, c: nat, w: nat, timed: bool)
    requires Reachable(s) && Parked(s, c, w, timed) && !s.waiters[w].notified
    ensures ApplyAll(s, [Act(c, Spurious), Act(c, Proceed)]) == Some(s)
  {
    hide ApplyAll, QueueOk, QueueLockOk;
    SignalsInReach(s);
    ReachableInv(s);
    assert CallOk(s, c);
    hide Apply;
    var x, t := s.waiters[w], Awoken(s, c, w, timed);
    assert x.(asleep := false).(asleep := true, woken := false) == x;
    WakeStep(s, c, w, timed, Spurious);
    CheckStep(t, c, w, timed, Proceed);
    var u := CheckCondition(t, c, w, timed, Proceed).value;
    assert u.calls == s.calls && u.waiters == s.waiters && u.stateLocks == s.stateLocks;
    TwoEvents(s, Act(c, Spurious), Act(c, Proceed));
  }

  lemma TwoEvents(s: State, a: Event, b: Event)
    requires Apply(s, a).Some? && Apply(Apply(s, a).value, b).Some?
    ensures ApplyAll(s, [a, b]) == Apply(Apply(s, a).value, b)
  {
    hide Apply;
    assert [a, b][1..] == [b];
    assert [b][1..] == [];
    assert ApplyAll(Apply(s, a).value, [b]) == Apply(Apply(s, a).value, b);
  }

  /** The call has come to that result, its waiter is complete, and its state lock is free again. */
  predicate ComesTo(t: Option<State>, c: nat, w: nat, result: bool) {
    && t.Some? && c < |t.value.calls| && t.value.calls[c] == WaitLeaveLock(w, result)
    && w < |t.value.waiters| && t.value.waiters[w].complete
    && w < |t.value.stateLocks| && t.value.stateLocks[w].None?
  }

  /** A signalled waiter goes on and comes to true, even with its time up; an unnotified one comes to false when its time
      is up, and without a timeout has no time that could be up. */
  lemma WakingDecides(s: State, c: nat, w: nat, timed: bool, choice: Choice)
    requires Reachable(s) && Parked(s, c, w, timed)
    ensures s.waiters[w].notified ==> ComesTo(ApplyAll(s, [Act(c, Proceed), Act(c, choice)]), c, w, true)
    ensures !s.waiters[w].notified && timed ==> ComesTo(ApplyAll(s, [Act(c, TimeOut), Act(c, TimeOut)]), c, w, false)
    ensures !timed ==> Apply(s, Act(c, TimeOut)) == None
    ensures !s.waiters[w].notified ==> Apply(s, Act(c, Proceed)) == None
  {
    hide ApplyAll, QueueOk, QueueLockOk, ComesTo;
    SignalsInReach(s);
    ReachableInv(s);
    assert CallOk(s, c) && WaiterOk(s, w);
    if s.waiters[w].notified { NotifiedEnds(s, c, w, timed, choice); } else if timed { TimeUpEnds(s, c, w); }
  }

  lemma NotifiedEnds(s: State, c: nat, w: nat, timed: bool, choice: Choice)
    requires Parked(s, c, w, timed) && s.waiters[w].notified && s.waiters[w].woken
    ensures ComesTo(ApplyAll(s, [Act(c, Proceed), Act(c, choice)]), c, w, true)
  {
    hide ApplyAll, Apply;
    WakeStep(s, c, w, timed, Proceed);
    CheckStep(Awoken(s, c, w, timed), c, w, timed, choice);
    TwoEvents(s, Act(c, Proceed), Act(c, choice));
  }

  lemma TimeUpEnds(s: State, c: nat, w: nat)
    requires Parked(s, c, w, true) && !s.waiters[w].notified
    ensures ComesTo(ApplyAll(s, [Act(c, TimeOut), Act(c, TimeOut)]), c, w, false)
  {
    hide ApplyAll, Apply;
    WakeStep(s, c, w, true, TimeOut);
    CheckStep(Awoken(s, c, w, true), c, w, true, TimeOut);
    TwoEvents(s, Act(c, TimeOut), Act(c, TimeOut));
  }
}

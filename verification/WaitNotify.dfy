/**
 Atomics.wait and Atomics.notify on one shared buffer, as a step system. A step is one
 lock-protected section: acquiring a lock, or the work done up to the next release. The
 queue lock guards the waiter queues; each waiter has its own state lock and condvar.
 Timeouts and spurious wakeups may land between any two steps; a step says which it is.
 `wokenBy`, `owner`, `snapshot` and `limit` record history the code does not keep.
 */
module WaitNotify {
  import opened Prelude

  datatype Waiter = Waiter(
    index: nat,          // byte index waited on
    owner: nat,          // the wait call
    notified: bool,
    complete: bool,
    asleep: bool,        // parked on the condvar
    woken: bool,         // parked, and signalled by notify_one
    wokenBy: Option<nat>)     // the notify call that counted it

  /** A notify call past its queue lookup: the queue it found, and how many waiters it may wake and has woken. */
  datatype Notify = Notify(index: nat, snapshot: seq<nat>, limit: nat, woke: nat)

  /** Where a call stands. */
  datatype Call =
    | WaitStart(index: nat, timed: bool)
    | WaitEnqueue(index: nat, timed: bool)           // holds the queue lock
    | WaitLock(w: nat, timed: bool)
    | WaitCheck(w: nat, timed: bool)                 // holds w's state lock
    | WaitAsleep(w: nat, timed: bool)
    | WaitLeaveLock(w: nat, result: bool)
    | WaitLeave(w: nat, result: bool)                // holds the queue lock
    | WaitDone(w: nat, result: bool)
    | NotifyStart(index: nat, count: Option<nat>)    // None is usize::MAX
    | NotifyLookup(index: nat, count: Option<nat>)   // holds the queue lock
    | NotifyScan(n: Notify, pos: nat)                // holds the queue lock
    | NotifyMark(n: Notify, pos: nat)                // holds the queue lock and snapshot[pos]'s state lock
    | NotifySweep(n: Notify, pos: nat, kept: seq<nat>)       // holds the queue lock
    | NotifySweepCheck(n: Notify, pos: nat, kept: seq<nat>)  // holds the queue lock and snapshot[pos]'s state lock
    | NotifyDone(n: Notify)
    | NotifyNone(index: nat)

  datatype State = State(
    calls: seq<Call>,
    waiters: seq<Waiter>,               // in order of enqueueing
    stateLocks: seq<Option<nat>>,       // holder of each waiter's state lock
    queues: map<nat, seq<nat>>,
    queueLock: Option<nat>)

  /** How a call goes on: on its own or by a signal it was sent, because its time is up, or by a spurious wakeup. */
  datatype Choice = Proceed | TimeOut | Spurious

  datatype Event =
    | BeginWait(index: nat, timed: bool)
    | BeginNotify(index: nat, count: Option<nat>)
    | Act(call: nat, choice: Choice)

  const INITIAL: State := State([], [], [], map[], None)

  // ----- steps -----

  function WithCall(s: State, c: nat, p: Call): State
    requires c < |s.calls|
  {
    s.(calls := s.calls[c := p])
  }

  function TakeQueue(s: State, c: nat, p: Call): Option<State>
    requires c < |s.calls|
  {
    if s.queueLock.Some? then None else Some(WithCall(s, c, p).(queueLock := Some(c)))
  }

  function TakeState(s: State, c: nat, w: nat, p: Call): Option<State>
    requires c < |s.calls|
  {
    if w >= |s.stateLocks| || s.stateLocks[w].Some? then None
    else Some(WithCall(s, c, p).(stateLocks := s.stateLocks[w := Some(c)]))
  }

  /** Write a waiter's state and release its state lock. */
  function ReleaseState(s: State, c: nat, w: nat, x: Waiter, p: Call): Option<State>
    requires c < |s.calls|
  {
    if w >= |s.stateLocks| || w >= |s.waiters| then None
    else Some(WithCall(s, c, p).(waiters := s.waiters[w := x], stateLocks := s.stateLocks[w := None]))
  }

  function Enqueue(s: State, c: nat, index: nat, timed: bool): State
    requires c < |s.calls|
  {
    var w := |s.waiters|;
    var q := if index in s.queues then s.queues[index] else [];
    WithCall(s, c, WaitLock(w, timed)).(
      waiters := s.waiters + [Waiter(index, c, false, false, false, false, None)],
      stateLocks := s.stateLocks + [None],
      queues := s.queues[index := q + [w]],
      queueLock := None)
  }

  /** The entries other than w. */
  function Without(q: seq<nat>, w: nat): seq<nat> {
    if q == [] then []
    else if q[0] == w then Without(q[1..], w)
    else [q[0]] + Without(q[1..], w)
  }

  /** Store what is left of a queue, dropping the map entry when nothing is. */
  function StoreQueue(queues: map<nat, seq<nat>>, index: nat, q: seq<nat>): map<nat, seq<nat>> {
    if q == [] then queues - {index} else queues[index := q]
  }

  function CheckCondition(s: State, c: nat, w: nat, timed: bool, choice: Choice): Option<State>
    requires c < |s.calls|
  {
    if w >= |s.waiters| then None else
    var x := s.waiters[w];
    if x.notified then ReleaseState(s, c, w, x.(complete := true), WaitLeaveLock(w, true))
    else if choice != TimeOut then ReleaseState(s, c, w, x.(asleep := true, woken := false), WaitAsleep(w, timed))
    else if timed then ReleaseState(s, c, w, x.(complete := true), WaitLeaveLock(w, false))
    else None
  }

  /** A parked waiter wakes when it was signalled, when its time is up, or for no reason. */
  predicate MayWake(x: Waiter, timed: bool, choice: Choice) {
    match choice
    case Proceed => x.woken
    case TimeOut => timed
    case Spurious => true
  }

  function WakeUp(s: State, c: nat, w: nat, timed: bool, choice: Choice): Option<State>
    requires c < |s.calls|
  {
    if w >= |s.waiters| || !MayWake(s.waiters[w], timed, choice) then None
    else TakeState(s.(waiters := s.waiters[w := s.waiters[w].(asleep := false)]), c, w, WaitCheck(w, timed))
  }

  function Leave(s: State, c: nat, w: nat, result: bool): Option<State>
    requires c < |s.calls|
  {
    if w >= |s.waiters| then None else
    var index := s.waiters[w].index;
    Some(WithCall(s, c, WaitDone(w, result)).(
      queues := if index in s.queues then StoreQueue(s.queues, index, Without(s.queues[index], w)) else s.queues,
      queueLock := None))
  }

  function Lookup(s: State, c: nat, index: nat, count: Option<nat>): State
    requires c < |s.calls|
  {
    if index !in s.queues then WithCall(s, c, NotifyNone(index)).(queueLock := None) else
    var q := s.queues[index];
    WithCall(s, c, NotifyScan(Notify(index, q, if count.Some? then count.value else |q|, 0), 0))
  }

  function Scan(s: State, c: nat, n: Notify, pos: nat): Option<State>
    requires c < |s.calls|
  {
    if pos >= |n.snapshot| || n.woke >= n.limit then Some(WithCall(s, c, NotifySweep(n, 0, [])))
    else TakeState(s, c, n.snapshot[pos], NotifyMark(n, pos))
  }

  function Mark(s: State, c: nat, n: Notify, pos: nat): Option<State>
    requires c < |s.calls|
  {
    if pos >= |n.snapshot| || n.snapshot[pos] >= |s.waiters| then None else
    var w := n.snapshot[pos];
    var x := s.waiters[w];
    if x.complete || x.notified then ReleaseState(s, c, w, x, NotifyScan(n, pos + 1))
    else ReleaseState(s, c, w,
                      x.(notified := true, complete := true, woken := x.asleep, wokenBy := Some(c)),
                      NotifyScan(n.(woke := n.woke + 1), pos + 1))
  }

  function Sweep(s: State, c: nat, n: Notify, pos: nat, kept: seq<nat>): Option<State>
    requires c < |s.calls|
  {
    if pos < |n.snapshot| then TakeState(s, c, n.snapshot[pos], NotifySweepCheck(n, pos, kept))
    else Some(WithCall(s, c, NotifyDone(n)).(queues := StoreQueue(s.queues, n.index, kept), queueLock := None))
  }

  function SweepCheck(s: State, c: nat, n: Notify, pos: nat, kept: seq<nat>): Option<State>
    requires c < |s.calls|
  {
    if pos >= |n.snapshot| || n.snapshot[pos] >= |s.waiters| then None else
    var w := n.snapshot[pos];
    ReleaseState(s, c, w, s.waiters[w],
                 NotifySweep(n, pos + 1, if s.waiters[w].complete then kept else kept + [w]))
  }

  function Advance(s: State, c: nat, choice: Choice): Option<State>
    requires c < |s.calls|
  {
    match s.calls[c]
    case WaitStart(index, timed) => TakeQueue(s, c, WaitEnqueue(index, timed))
    case WaitEnqueue(index, timed) => Some(Enqueue(s, c, index, timed))
    case WaitLock(w, timed) => TakeState(s, c, w, WaitCheck(w, timed))
    case WaitCheck(w, timed) => CheckCondition(s, c, w, timed, choice)
    case WaitAsleep(w, timed) => WakeUp(s, c, w, timed, choice)
    case WaitLeaveLock(w, result) => TakeQueue(s, c, WaitLeave(w, result))
    case WaitLeave(w, result) => Leave(s, c, w, result)
    case WaitDone(_, _) => None
    case NotifyStart(index, count) => TakeQueue(s, c, NotifyLookup(index, count))
    case NotifyLookup(index, count) => Some(Lookup(s, c, index, count))
    case NotifyScan(n, pos) => Scan(s, c, n, pos)
    case NotifyMark(n, pos) => Mark(s, c, n, pos)
    case NotifySweep(n, pos, kept) => Sweep(s, c, n, pos, kept)
    case NotifySweepCheck(n, pos, kept) => SweepCheck(s, c, n, pos, kept)
    case NotifyDone(_) => None
    case NotifyNone(_) => None
  }

  /** None when the event is not possible in s. */
  function Apply(s: State, e: Event): Option<State> {
    match e
    case BeginWait(index, timed) => Some(s.(calls := s.calls + [WaitStart(index, timed)]))
    case BeginNotify(index, count) => Some(s.(calls := s.calls + [NotifyStart(index, count)]))
    case Act(c, choice) => if c < |s.calls| then Advance(s, c, choice) else None
  }

  function ApplyAll(s: State, events: seq<Event>): Option<State>
    decreases |events|
  {
    if events == [] then Some(s) else
    match Apply(s, events[0])
    case None => None
    case Some(s') => ApplyAll(s', events[1..])
  }

  /** A state some run of waits, timeouts and notifies leads to. */
  ghost predicate Reachable(s: State) {
    exists events :: ApplyAll(INITIAL, events) == Some(s)
  }

  // ----- what a call holds -----

  predicate HoldsQueue(p: Call) {
    p.WaitEnqueue? || p.WaitLeave? || p.NotifyLookup? || p.NotifyScan? || p.NotifyMark? || p.NotifySweep? || p.NotifySweepCheck?
  }

  function HeldState(p: Call): Option<nat> {
    match p
    case WaitCheck(w, _) => Some(w)
    case NotifyMark(n, pos) => if pos < |n.snapshot| then Some(n.snapshot[pos]) else None
    case NotifySweepCheck(n, pos, _) => if pos < |n.snapshot| then Some(n.snapshot[pos]) else None
    case _ => None
  }

  /** The waiter a wait call has enqueued. */
  function WaiterOf(p: Call): Option<nat> {
    match p
    case WaitLock(w, _) => Some(w)
    case WaitCheck(w, _) => Some(w)
    case WaitAsleep(w, _) => Some(w)
    case WaitLeaveLock(w, _) => Some(w)
    case WaitLeave(w, _) => Some(w)
    case WaitDone(w, _) => Some(w)
    case _ => None
  }

  /** How many wakeups a call has counted so far. */
  function Counted(p: Call): nat {
    match p
    case NotifyScan(n, _) => n.woke
    case NotifyMark(n, _) => n.woke
    case NotifySweep(n, _, _) => n.woke
    case NotifySweepCheck(n, _, _) => n.woke
    case NotifyDone(n) => n.woke
    case _ => 0
  }

  predicate Increasing(q: seq<nat>) {
    forall i, j :: 0 <= i < j < |q| ==> q[i] < q[j]
  }
}

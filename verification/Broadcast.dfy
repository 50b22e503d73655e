/**
 Broadcasting a buffer to the agents: a data slot, a u32 generation counter, and a condvar.
 A step is one lock-protected section; a parked agent wakes when it was signalled, or
 spuriously, which a step then says. `writes`, `bumps` and `ordinal` record history.
 */
module Broadcast {
  import opened Prelude
  import Arith

  /** What the slot holds: the buffer, and which write put it there. */
  datatype Slot = Slot(buffer: nat, ordinal: nat)

  datatype Call =
    | SendStart(buffer: nat)
    | SendWrite(buffer: nat)                      // holds the data lock
    | SendBumpLock
    | SendBump                                    // holds the generation lock
    | SendDone
    | AwaitStart(lastSeen: u32)
    | AwaitCheck(lastSeen: u32)                   // holds the generation lock
    | AwaitAsleep(lastSeen: u32, woken: bool)
    | AwaitReadLock(lastSeen: u32, seen: u32)     // holds the generation lock
    | AwaitRead(lastSeen: u32, seen: u32)         // holds the generation and data locks
    | AwaitDone(lastSeen: u32, seen: u32, info: Option<Slot>)

  datatype State = State(
    calls: seq<Call>,
    generation: u32,
    slot: Option<Slot>,
    generationLock: Option<nat>,
    dataLock: Option<nat>,
    writes: nat,
    bumps: nat)

  datatype Event = BeginSend(buffer: nat) | BeginAwait(lastSeen: u32) | Act(call: nat, spurious: bool)

  const INITIAL: State := State([], 0, None, None, None, 0, 0)

  function WithCall(s: State, c: nat, p: Call): State
    requires c < |s.calls|
  {
    s.(calls := s.calls[c := p])
  }

  /** notify_all: every parked agent is signalled. */
  function WakeAll(calls: seq<Call>): (r: seq<Call>)
    ensures |r| == |calls|
    ensures forall c :: 0 <= c < |calls| ==>
      r[c] == if calls[c].AwaitAsleep? then AwaitAsleep(calls[c].lastSeen, true) else calls[c]
  {
    seq(|calls|, c requires 0 <= c < |calls| =>
      if calls[c].AwaitAsleep? then AwaitAsleep(calls[c].lastSeen, true) else calls[c])
  }

  function Advance(s: State, c: nat, spurious: bool): Option<State>
    requires c < |s.calls|
  {
    match s.calls[c]
    case SendStart(b) => if s.dataLock.Some? then None else Some(WithCall(s, c, SendWrite(b)).(dataLock := Some(c)))
    case SendWrite(b) =>
      Some(WithCall(s, c, SendBumpLock).(slot := Some(Slot(b, s.writes + 1)), writes := s.writes + 1, dataLock := None))
    case SendBumpLock => if s.generationLock.Some? then None else Some(WithCall(s, c, SendBump).(generationLock := Some(c)))
    case SendBump =>
      var t := WithCall(s, c, SendDone);
      Some(t.(calls := WakeAll(t.calls), generation := (s.generation as int + 1) % U32, bumps := s.bumps + 1, generationLock := None))
    case AwaitStart(l) => if s.generationLock.Some? then None else Some(WithCall(s, c, AwaitCheck(l)).(generationLock := Some(c)))
    case AwaitCheck(l) =>
      if s.generation <= l then Some(WithCall(s, c, AwaitAsleep(l, false)).(generationLock := None))
      else Some(WithCall(s, c, AwaitReadLock(l, s.generation)))
    case AwaitAsleep(l, woken) => if s.generationLock.Some? || !(woken || spurious) then None else Some(WithCall(s, c, AwaitCheck(l)).(generationLock := Some(c)))
    case AwaitReadLock(l, g) => if s.dataLock.Some? then None else Some(WithCall(s, c, AwaitRead(l, g)).(dataLock := Some(c)))
    case AwaitRead(l, g) => Some(WithCall(s, c, AwaitDone(l, g, s.slot)).(generationLock := None, dataLock := None))
    case SendDone => None
    case AwaitDone(_, _, _) => None
  }

  function Apply(s: State, e: Event): Option<State> {
    match e
    case BeginSend(b) => Some(s.(calls := s.calls + [SendStart(b)]))
    case BeginAwait(l) => Some(s.(calls := s.calls + [AwaitStart(l)]))
    case Act(c, spurious) => if c < |s.calls| then Advance(s, c, spurious) else None
  }

  function ApplyAll(s: State, events: seq<Event>): Option<State>
    decreases |events|
  {
    if events == [] then Some(s) else
    match Apply(s, events[0])
    case None => None
    case Some(s') => ApplyAll(s', events[1..])
  }

  ghost predicate Reachable(s: State) {
    exists events :: ApplyAll(INITIAL, events) == Some(s)
  }

  // ----- the invariant -----

  predicate HoldsGeneration(p: Call) {
    p.SendBump? || p.AwaitCheck? || p.AwaitReadLock? || p.AwaitRead?
  }

  predicate HoldsData(p: Call) {
    p.SendWrite? || p.AwaitRead?
  }

  /** Calls that have written the slot and not yet bumped the generation. */
  predicate Unannounced(p: Call) {
    p.SendBumpLock? || p.SendBump?
  }

  function CountUnannounced(calls: seq<Call>): nat {
    if calls == [] then 0 else CountUnannounced(calls[..|calls| - 1]) + if Unannounced(calls[|calls| - 1]) then 1 else 0
  }

  ghost predicate CallOk(s: State, c: nat)
    requires c < |s.calls|
  {
    var p := s.calls[c];
    && (HoldsGeneration(p) <==> s.generationLock == Some(c))
    && (HoldsData(p) <==> s.dataLock == Some(c))
    && match p
       case AwaitReadLock(l, g) => l < g == s.generation && g as int <= s.bumps
       case AwaitRead(l, g) => l < g == s.generation && g as int <= s.bumps
       case AwaitAsleep(l, woken) => !woken ==> s.generation <= l
       case AwaitDone(l, g, info) => l < g && info.Some? && g as int <= info.value.ordinal <= s.writes
       case _ => true
  }

  ghost predicate Inv(s: State) {
    && s.generation as int == s.bumps % U32
    && s.writes == s.bumps + CountUnannounced(s.calls)
    && (s.writes > 0 ==> s.slot.Some? && s.slot.value.ordinal == s.writes)
    && (s.generationLock.Some? ==> s.generationLock.value < |s.calls|)
    && (s.dataLock.Some? ==> s.dataLock.value < |s.calls|)
    && forall c :: 0 <= c < |s.calls| ==> CallOk(s, c)
  }

  lemma {:induction false} CountPut(calls: seq<Call>, c: nat, p: Call)
    requires c < |calls|
    ensures CountUnannounced(calls[c := p])
         == CountUnannounced(calls) - (if Unannounced(calls[c]) then 1 else 0) + (if Unannounced(p) then 1 else 0)
    decreases |calls|
  {
    var n := |calls| - 1;
    if c == n {
      assert calls[c := p][..n] == calls[..n];
    } else {
      assert calls[c := p][..n] == calls[..n][c := p];
      CountPut(calls[..n], c, p);
    }
  }

  lemma {:induction false} CountWakeAll(calls: seq<Call>)
    ensures CountUnannounced(WakeAll(calls)) == CountUnannounced(calls)
  {
    if calls != [] {
      assert WakeAll(calls)[..|calls| - 1] == WakeAll(calls[..|calls| - 1]);
      CountWakeAll(calls[..|calls| - 1]);
    }
  }

  lemma BumpKeepsInv(s: State, c: nat, spurious: bool)
    requires Inv(s) && c < |s.calls| && s.calls[c].SendBump?
    ensures Inv(Advance(s, c, spurious).value)
  {
    var t := Advance(s, c, spurious).value;
    assert CallOk(s, c);
    CountPut(s.calls, c, SendDone);
    CountWakeAll(s.calls[c := SendDone]);
    forall d | 0 <= d < |t.calls| ensures CallOk(t, d) { BumpKeepsCall(s, c, d, spurious); }
    hide CallOk, WakeAll;
    assert s.bumps + 1 == t.bumps;
    assert t.generation as int == t.bumps % U32;
  }

  lemma BumpKeepsCall(s: State, c: nat, d: nat, spurious: bool)
    requires Inv(s) && c < |s.calls| && s.calls[c].SendBump? && d < |s.calls|
    ensures CallOk(Advance(s, c, spurious).value, d)
  {
    assert CallOk(s, c) && CallOk(s, d);
  }

  lemma ActingCallOk(s: State, c: nat, spurious: bool)
    requires Inv(s) && c < |s.calls| && !s.calls[c].SendBump? && Advance(s, c, spurious).Some?
    ensures CallOk(Advance(s, c, spurious).value, c)
  {
    assert CallOk(s, c);
  }

  lemma OtherCallOk(s: State, c: nat, d: nat, spurious: bool)
    requires Inv(s) && c < |s.calls| && !s.calls[c].SendBump? && Advance(s, c, spurious).Some? && d < |s.calls| && d != c
    ensures CallOk(Advance(s, c, spurious).value, d)
  {
    assert CallOk(s, c) && CallOk(s, d);
  }

  lemma AdvanceKeepsInv(s: State, c: nat, spurious: bool)
    requires Inv(s) && c < |s.calls| && Advance(s, c, spurious).Some?
    ensures Inv(Advance(s, c, spurious).value)
  {
    var t := Advance(s, c, spurious).value;
    if s.calls[c].SendBump? {
      BumpKeepsInv(s, c, spurious);
    } else {
      CountPut(s.calls, c, t.calls[c]);
      ActingCallOk(s, c, spurious);
      forall d | 0 <= d < |t.calls| && d != c ensures CallOk(t, d) { OtherCallOk(s, c, d, spurious); }
      hide CallOk, CountUnannounced;
    }
  }

  lemma BeginKeepsInv(s: State, p: Call)
    requires Inv(s) && (p.SendStart? || p.AwaitStart?)
    ensures Inv(s.(calls := s.calls + [p]))
  {
    var t := s.(calls := s.calls + [p]);
    assert t.calls[..|s.calls|] == s.calls;
    forall d | 0 <= d < |t.calls| ensures CallOk(t, d) { if d < |s.calls| { assert CallOk(s, d); } }
  }

  lemma {:induction false} RunKeepsInv(s: State, events: seq<Event>)
    requires Inv(s) && ApplyAll(s, events).Some?
    ensures Inv(ApplyAll(s, events).value)
    decreases |events|
  {
    hide Inv, Advance;
    if events != [] {
      match events[0] {
        case BeginSend(b) => BeginKeepsInv(s, SendStart(b));
        case BeginAwait(l) => BeginKeepsInv(s, AwaitStart(l));
        case Act(c, spurious) => AdvanceKeepsInv(s, c, spurious);
      }
      RunKeepsInv(Apply(s, events[0]).value, events[1..]);
    }
  }

  lemma InitialInv()
    ensures Inv(INITIAL)
  {
  }

  lemma ReachableInv(s: State)
    requires Reachable(s)
    ensures Inv(s)
  {
    hide Inv, Apply;
    var events :| ApplyAll(INITIAL, events) == Some(s);
    InitialInv();
    RunKeepsInv(INITIAL, events);
  }

  // ----- what holds over every run -----

  /** The slot writes not yet announced by a generation bump are those of the senders between the two. */
  lemma WritesAccountedFor(s: State)
    requires Reachable(s)
    ensures s.writes == s.bumps + CountUnannounced(s.calls)
  {
    ReachableInv(s);
  }

  /** Waiting for a broadcast returns one: a buffer no older than the generation the agent saw, which is newer than
      the one it had seen before. */
  lemma AwaitSeesABroadcast(s: State, c: nat)
    requires Reachable(s) && c < |s.calls| && s.calls[c].AwaitDone?
    ensures var AwaitDone(lastSeen, seen, info) := s.calls[c];
            lastSeen < seen && info.Some? && info.value.ordinal >= seen as int
  {
    ReachableInv(s);
    assert CallOk(s, c);
  }

  /** No broadcast is lost below 2^32 of them: an agent parked without a signal has seen every bump so far. */
  lemma NoLostBroadcast(s: State, c: nat)
    requires Reachable(s) && s.bumps < U32 && c < |s.calls|
    ensures s.calls[c].AwaitAsleep? && !s.calls[c].woken ==> s.bumps <= s.calls[c].lastSeen as int
  {
    ReachableInv(s);
    assert CallOk(s, c);
  }

  predicate Finished(p: Call) {
    p.SendDone? || p.AwaitDone?
  }

  /** The data lock is the last in the order: its holder never waits, and the generation lock's holder waits for
      nothing but the data lock. */
  lemma HoldersCanStep(s: State)
    requires Reachable(s)
    ensures s.dataLock.Some? ==> s.dataLock.value < |s.calls| && Apply(s, Act(s.dataLock.value, false)).Some?
    ensures s.generationLock.Some? && s.dataLock == None ==>
      s.generationLock.value < |s.calls| && Apply(s, Act(s.generationLock.value, false)).Some?
  {
    ReachableInv(s);
    if s.dataLock.Some? {
      assert CallOk(s, s.dataLock.value);
    } else if s.generationLock.Some? {
      assert CallOk(s, s.generationLock.value);
    }
  }

  /** Parked with every generation so far seen. */
  predicate UpToDate(s: State, c: nat) {
    c < |s.calls| && s.calls[c].AwaitAsleep? && s.generation <= s.calls[c].lastSeen
  }

  /** Without any spurious wakeup, in every reachable state some call can step, or every unfinished call is an agent
      parked with no newer generation than the one it has seen. */
  lemma NoDeadlock(s: State)
    requires Reachable(s)
    ensures (exists d :: 0 <= d < |s.calls| && Apply(s, Act(d, false)).Some?)
      || forall c :: 0 <= c < |s.calls| && !Finished(s.calls[c]) ==> UpToDate(s, c)
  {
    ReachableInv(s);
    HoldersCanStep(s);
    if s.dataLock == None && s.generationLock == None {
      forall c | 0 <= c < |s.calls| && !Finished(s.calls[c]) && !UpToDate(s, c) ensures Apply(s, Act(c, false)).Some? {
        assert CallOk(s, c);
      }
    }
  }

  /** Below 2^32 broadcasts such an agent has seen every one of them. */
  lemma UpToDateSeesAll(s: State, c: nat)
    requires Reachable(s) && s.bumps < U32 && UpToDate(s, c)
    ensures s.bumps <= s.calls[c].lastSeen as int
  {
    ReachableInv(s);
    Arith.DivModUnique(s.bumps, 0, U32, s.bumps);
  }

  // ----- waking -----

  /** The agent has parked, having seen that generation, and nobody holds the generation's lock. */
  predicate Parked(s: State, c: nat, lastSeen: u32, woken: bool) {
    c < |s.calls| && s.calls[c] == AwaitAsleep(lastSeen, woken) && s.generationLock.None?
  }

  /** An agent that finds nothing newer than what it has seen parks unsignalled, and then does not go on by itself; a
      spurious wakeup leads it back to the very same state. */
  lemma ParksUntilSignalled(s: State, c: nat, lastSeen: u32)
    requires Parked(s, c, lastSeen, false)
    ensures Apply(s, Act(c, false)) == None
    ensures s.generation <= lastSeen ==> forall b :: Twice(s, Act(c, true), Act(c, b)) == Some(s)
    ensures s.generation > lastSeen ==>
      forall b :: Twice(s, Act(c, true), Act(c, b))
               == Some(s.(calls := s.calls[c := AwaitReadLock(lastSeen, s.generation)], generationLock := Some(c)))
  {
    var woken := s.(calls := s.calls[c := AwaitCheck(lastSeen)], generationLock := Some(c));
    assert Apply(s, Act(c, true)) == Some(woken);
    forall b ensures Twice(s, Act(c, true), Act(c, b)) == Apply(woken, Act(c, b)) {
      Second(s, Act(c, true), Act(c, b));
    }
    assert s.calls[c := AwaitCheck(lastSeen)][c := AwaitAsleep(lastSeen, false)] == s.calls;
    assert s.calls[c := AwaitCheck(lastSeen)][c := AwaitReadLock(lastSeen, s.generation)]
        == s.calls[c := AwaitReadLock(lastSeen, s.generation)];
  }

  function Twice(s: State, a: Event, b: Event): Option<State> {
    ApplyAll(s, [a, b])
  }

  lemma Second(s: State, a: Event, b: Event)
    requires Apply(s, a).Some?
    ensures Twice(s, a, b) == Apply(Apply(s, a).value, b)
  {
    hide Apply;
    assert [a, b][1..] == [b];
    assert [b][1..] == [];
    assert ApplyAll(Apply(s, a).value, [b]) == Apply(Apply(s, a).value, b);
  }
}

/** What any sequence of resizes, detaches and stores leaves of a buffer, and exactly which views can be made of it. */
module BufferHistories {
  import opened Prelude
  import opened ArrayBuffers
  import opened DataViews

  // ----- histories -----

  /** Whether the buffer takes a resize: it is resizable, alive and mutable, and the length is no more than its most. */
  predicate TakesLength(b: BufferState, n: nat) {
    b.resizable && !b.detached && !b.immutable && n <= b.maxByteLength
  }

  /** The length that the last resize taken asked for. */
  function LastLength(b: BufferState, actions: seq<Action>): nat
    decreases |actions|
  {
    if actions == [] then b.byteLength else
    match actions[|actions| - 1]
    case Resize(n) => if TakesLength(b, n) then n else LastLength(b, actions[..|actions| - 1])
    case _ => LastLength(b, actions[..|actions| - 1])
  }

  predicate Stores(actions: seq<Action>, i: nat) {
    exists k, v :: 0 <= k < |actions| && actions[k] == Poke(i, v)
  }

  /** The byte is inside the buffer after each prefix of the actions. */
  ghost predicate StaysInside(b: BufferState, actions: seq<Action>, i: nat) {
    forall k :: 0 <= k <= |actions| ==> i < |ActAll(b, actions[..k]).bytes|
  }

  /** The last action is taken in the state that the others leave. */
  lemma LastAct(b: BufferState, actions: seq<Action>)
    requires actions != []
    ensures ActAll(b, actions) == Act(ActAll(b, actions[..|actions| - 1]), actions[|actions| - 1])
  {
    var before, last := actions[..|actions| - 1], actions[|actions| - 1];
    assert actions == before + [last];
    ActAllConcat(b, before, [last]);
  }

  /** A buffer is detached exactly when it was before or some action detaches it. */
  lemma {:induction false} DetachedIff(b: BufferState, actions: seq<Action>)
    ensures ActAll(b, actions).detached <==> b.detached || Detach in actions
    ensures var after := ActAll(b, actions);
            && after.resizable == b.resizable && after.immutable == b.immutable && after.maxByteLength == b.maxByteLength
    decreases |actions|
  {
    if actions != [] { DetachedIff(Act(b, actions[0]), actions[1..]); }
  }

  /** A detached buffer has no bytes; any other has the length of the last resize it took. */
  lemma {:induction false} LengthAfter(b: BufferState, actions: seq<Action>)
    requires Consistent(b)
    ensures |ActAll(b, actions).bytes| == if b.detached || Detach in actions then 0 else LastLength(b, actions)
    decreases |actions|
  {
    if actions != [] {
      var before := actions[..|actions| - 1];
      LastAct(b, actions);
      LengthAfter(b, before);
      DetachedIff(b, before);
      DetachedIff(b, actions);
      ActAllKeeps(b, actions);
      assert Detach in actions <==> Detach in before || actions[|actions| - 1] == Detach by {
        assert actions == before + [actions[|actions| - 1]];
      }
    }
  }

  lemma NotStoredWithin(actions: seq<Action>, from: nat, to: nat, i: nat)
    requires from <= to <= |actions| && !Stores(actions, i)
    ensures !Stores(actions[from..to], i)
  {
    forall k, v | 0 <= k < to - from ensures actions[from..to][k] != Poke(i, v) { assert actions[from + k] != Poke(i, v); }
  }

  /** A byte that is never stored to and never leaves the buffer keeps its value. */
  lemma {:induction false} UntouchedByteKept(b: BufferState, actions: seq<Action>, i: nat)
    requires StaysInside(b, actions, i) && !Stores(actions, i)
    ensures i < |b.bytes| && i < |ActAll(b, actions).bytes|
    ensures ActAll(b, actions).bytes[i] == b.bytes[i]
    decreases |actions|
  {
    assert actions[..0] == [] && actions[..|actions|] == actions;
    if actions != [] {
      var first, rest := actions[0], actions[1..];
      assert actions[..1] == [first];
      assert ActAll(b, [first]) == Act(b, first);
      assert first == actions[0];
      forall k | 0 <= k <= |rest| ensures i < |ActAll(Act(b, first), rest[..k]).bytes| {
        assert actions[..k + 1][1..] == rest[..k];
      }
      NotStoredWithin(actions, 1, |actions|, i);
      UntouchedByteKept(Act(b, first), rest, i);
    }
  }

  /** A byte that has been outside the buffer and not been stored to since is zero when it is inside again. */
  lemma {:induction false} ReturnedByteIsZero(b: BufferState, actions: seq<Action>, i: nat)
    requires i >= |b.bytes| && !Stores(actions, i)
    ensures i < |ActAll(b, actions).bytes| ==> ActAll(b, actions).bytes[i] == 0
    decreases |actions|
  {
    if actions != [] {
      var before, last := actions[..|actions| - 1], actions[|actions| - 1];
      NotStoredWithin(actions, 0, |actions| - 1, i);
      LastAct(b, actions);
      ReturnedByteIsZero(b, before, i);
    }
  }

  /** The last store to a byte inside the buffer is what it holds as long as it stays inside. */
  lemma LastStoreHolds(b: BufferState, before: seq<Action>, i: nat, v: byte, since: seq<Action>)
    requires i < |ActAll(b, before).bytes|
    requires StaysInside(ActAll(b, before + [Poke(i, v)]), since, i) && !Stores(since, i)
    ensures var after := ActAll(b, before + [Poke(i, v)] + since); i < |after.bytes| && after.bytes[i] == v
  {
    var stored := before + [Poke(i, v)];
    ActAllConcat(b, stored, since);
    LastAct(b, stored);
    assert stored[..|before|] == before;
    UntouchedByteKept(ActAll(b, stored), since, i);
  }

  // ----- which views can be made -----

  /** An integer with the fraction of a number cut off. */
  predicate IntegerPart(v: real, n: int) {
    if v >= 0.0 then n as real <= v < (n + 1) as real else (n - 1) as real < v <= n as real
  }

  /** An index argument is a number whose integer part lies between 0 and 2^53 - 1, or not a number, which counts as 0. */
  predicate IsIndex(x: Number, n: int) {
    match x
    case NaN => n == 0
    case Infinite(_) => false
    case Finite(v) => IntegerPart(v, n) && 0 <= n <= 0x1f_ffff_ffff_ffff
  }

  lemma IndexIff(c: Coercion<Number>, n: nat)
    ensures IndexOf(c) == Ok(n) <==> c.outcome.Ok? && IsIndex(c.outcome.value, n)
  {
  }

  lemma IsAnIndex(c: Coercion<Number>)
    ensures c.outcome.Ok? && (forall i: nat :: !IsIndex(c.outcome.value, i)) ==> IndexOf(c) == Throw(RangeError)
  {
    if IndexOf(c).Ok? { IndexIff(c, IndexOf(c).value); }
  }

  lemma CoercesSomewhere(c: Coercion<Number>)
    ensures IndexOf(c).Ok? <==> c.outcome.Ok? && exists i: nat :: IsIndex(c.outcome.value, i)
  {
    if IndexOf(c).Ok? {
      IndexIff(c, IndexOf(c).value);
    } else {
      forall i: nat ensures c.outcome.Ok? ==> !IsIndex(c.outcome.value, i) { IndexIff(c, i); }
    }
  }

  /** The buffer after the offset, the length and the prototype have been asked for. */
  function Asked(b: BufferState, offset: Coercion<Number>, length: Option<Coercion<Number>>, prototype: Coercion<()>): BufferState {
    ActAll(b, offset.actions + (if length.Some? then length.value.actions else []) + prototype.actions)
  }

  predicate CoercesTo(c: Coercion<Number>, n: int) {
    c.outcome.Ok? && IsIndex(c.outcome.value, n)
  }

  /** When a view of n bytes at an offset can be made: no coercion throws, and the view fits both into the buffer as it is
      when the offset is known and, that buffer being alive, into the buffer as it is at the end. */
  ghost predicate CanView(b: BufferState, offset: Coercion<Number>, length: Option<Coercion<Number>>, prototype: Coercion<()>, at: nat, n: nat) {
    var first, last := ActAll(b, offset.actions), Asked(b, offset, length, prototype);
    && CoercesTo(offset, at) && prototype.outcome.Ok?
    && !first.detached && at <= |first.bytes|
    && !last.detached
    && match length
       case None => at + n == |last.bytes|
       case Some(c) => CoercesTo(c, n) && at + n <= |first.bytes| && at + n <= |last.bytes|
  }

  /** Exactly which views can be constructed. The one made shows those bytes of the buffer. */
  lemma ConstructIff(b: BufferState, offset: Coercion<Number>, length: Option<Coercion<Number>>, prototype: Coercion<()>, v: View)
    requires Consistent(b)
    ensures Construct(b, offset, length, prototype).0 == Ok(v) <==>
      (CanView(b, offset, length, prototype, v.byteOffset, v.byteLength) && v.autoLength == length.None?)
    ensures Construct(b, offset, length, prototype).0 == Ok(v) ==>
      var after := Construct(b, offset, length, prototype).1;
      && after == Asked(b, offset, length, prototype)
      && Shown(after, v) == Some(after.bytes[v.byteOffset..v.byteOffset + v.byteLength])
  {
    hide ActAll, ToIndex;
    var b1 := ActAll(b, offset.actions);
    ActAllKeeps(b, offset.actions);
    CoercesSomewhere(offset);
    IndexIff(offset, v.byteOffset);
    if length.Some? {
      var b2 := ActAll(b1, length.value.actions);
      ActAllConcat(b, offset.actions, length.value.actions);
      ActAllConcat(b, offset.actions + length.value.actions, prototype.actions);
      ActAllKeeps(b1, length.value.actions);
      ActAllKeeps(b2, prototype.actions);
      IndexIff(length.value, v.byteLength);
    } else {
      assert offset.actions + [] == offset.actions;
      ActAllConcat(b, offset.actions, prototype.actions);
      ActAllKeeps(b1, prototype.actions);
    }
  }

  /** When no coercion throws, a view is refused for its type exactly when the buffer is found detached, after the offset
      or, if the view fitted then, at the end; for its range in every other case. */
  lemma RefusalKinds(b: BufferState, offset: Coercion<Number>, length: Option<Coercion<Number>>, prototype: Coercion<()>, at: nat, n: nat)
    requires Consistent(b)
    requires CoercesTo(offset, at) && prototype.outcome.Ok?
    requires length.Some? ==> CoercesTo(length.value, n)
    ensures var first, last := ActAll(b, offset.actions), Asked(b, offset, length, prototype);
      var fitted := at + (if length.Some? then n else 0) <= |first.bytes|;
      var r := Construct(b, offset, length, prototype).0;
      && (r == Throw(TypeError) <==> first.detached || (fitted && last.detached))
      && (r.Throw? ==> r.error == TypeError || r.error == RangeError)
  {
    hide ActAll, ToIndex;
    var b1 := ActAll(b, offset.actions);
    ActAllKeeps(b, offset.actions);
    IndexIff(offset, at);
    if length.Some? {
      var b2 := ActAll(b1, length.value.actions);
      ActAllConcat(b, offset.actions, length.value.actions);
      ActAllConcat(b, offset.actions + length.value.actions, prototype.actions);
      IndexIff(length.value, n);
    } else {
      assert offset.actions + [] == offset.actions;
      ActAllConcat(b, offset.actions, prototype.actions);
    }
  }

  /** What a coercion throws is passed on, unless a check on the buffer or an earlier coercion has failed before, and a
      number that is no index is out of range. */
  lemma CoercionsPassOn(b: BufferState, offset: Coercion<Number>, length: Option<Coercion<Number>>, prototype: Coercion<()>, at: nat, n: nat)
    requires Consistent(b)
    ensures var first := ActAll(b, offset.actions);
      var r := Construct(b, offset, length, prototype).0;
      && Refuses(offset, r)
      && (CoercesTo(offset, at) && !first.detached && at <= |first.bytes| ==>
            && (length.Some? ==> Refuses(length.value, r))
            && ((length.Some? ==> CoercesTo(length.value, n) && at + n <= |first.bytes|) && prototype.outcome.Throw? ==>
                  r == Throw(prototype.outcome.error)))
  {
    hide ActAll, IsIndex;
    ActAllKeeps(b, offset.actions);
    IsAnIndex(offset);
    IndexIff(offset, at);
    if length.Some? {
      IsAnIndex(length.value);
      IndexIff(length.value, n);
    }
  }

  ghost predicate Refuses<T>(c: Coercion<Number>, r: Result<T>) {
    && (c.outcome.Throw? ==> r == Throw(c.outcome.error))
    && (c.outcome.Ok? && (forall i: nat :: !IsIndex(c.outcome.value, i)) ==> r == Throw(RangeError))
  }

  // ----- the views of a run -----

  /** A construction that succeeds adds its view after the others; nothing else adds or drops one. */
  lemma ViewsGrow(w: World, e: Event)
    ensures Step(w, e).views ==
      if e.NewView? && Construct(w.buffer, e.offset, e.length, e.prototype).0.Ok?
      then w.views + [Construct(w.buffer, e.offset, e.length, e.prototype).0.value] else w.views
  {
    hide Construct, ValidateGet, ValidateSet, Act;
  }

  /** So a view of a run stays that view for good. */
  lemma {:induction false} ViewsStay(w: World, es: seq<Event>)
    ensures |w.views| <= |Steps(w, es).views| && Steps(w, es).views[..|w.views|] == w.views
    decreases |es|
  {
    hide Step;
    if es != [] {
      ViewsGrow(w, es[0]);
      ViewsStay(Step(w, es[0]), es[1..]);
      assert Steps(w, es).views[..|w.views|] == Step(w, es[0]).views[..|w.views|];
    }
  }
}

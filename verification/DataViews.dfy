/** DataView construction and bounds checks over buffers that user code may change in the middle. */
module DataViews {
  import opened Prelude
  import opened ArrayBuffers

  datatype View = View(byteOffset: nat, byteLength: nat, autoLength: bool)

  /** The length a view has at this moment. */
  function EffectiveLength(b: BufferState, v: View): Result<nat> {
    if !b.resizable then Ok(v.byteLength)
    else if v.autoLength then
      if v.byteOffset > b.byteLength then Throw(TypeError) else Ok(b.byteLength - v.byteOffset)
    else if v.byteOffset + v.byteLength > b.byteLength then Throw(TypeError)
    else Ok(v.byteLength)
  }

  /** The checks after all coercions: where an element of that size starts in the buffer. */
  function CheckBounds(b: BufferState, v: View, index: nat, size: nat): Result<nat> {
    if b.detached then Throw(TypeError) else
    match EffectiveLength(b, v)
    case Throw(e) => Throw(e)
    case Ok(n) => if index + size > n then Throw(RangeError) else Ok(v.byteOffset + index)
  }

  /** dataview_validate_get: the outcome, and the buffer as user code left it. A receiver of None is not a DataView. */
  function ValidateGet(b: BufferState, receiver: Option<View>, offset: Coercion<Number>, size: nat): (Result<nat>, BufferState) {
    if receiver.None? then (Throw(TypeError), b) else
    var b1 := ActAll(b, offset.actions);
    match IndexOf(offset)
    case Throw(e) => (Throw(e), b1)
    case Ok(index) => (CheckBounds(b1, receiver.value, index, size), b1)
  }

  /** dataview_validate_set: as for get, with the immutability check first and the value coerced after the offset. */
  function ValidateSet<T>(b: BufferState, receiver: Option<View>, offset: Coercion<Number>, value: Coercion<T>, size: nat)
    : (Result<(nat, T)>, BufferState)
  {
    if receiver.None? || b.immutable then (Throw(TypeError), b) else
    var b1 := ActAll(b, offset.actions);
    match IndexOf(offset)
    case Throw(e) => (Throw(e), b1)
    case Ok(index) =>
      var b2 := ActAll(b1, value.actions);
      match value.outcome
      case Throw(e) => (Throw(e), b2)
      case Ok(x) =>
        match CheckBounds(b2, receiver.value, index, size)
        case Throw(e) => (Throw(e), b2)
        case Ok(base) => (Ok((base, x)), b2)
  }

  /** construct_dataview. A length of None is undefined; prototype is the lookup of newTarget.prototype. */
  function Construct(b: BufferState, offset: Coercion<Number>, length: Option<Coercion<Number>>, prototype: Coercion<()>)
    : (Result<View>, BufferState)
  {
    var b1 := ActAll(b, offset.actions);
    match IndexOf(offset)
    case Throw(e) => (Throw(e), b1)
    case Ok(byteOffset) =>
      if b1.detached then (Throw(TypeError), b1)
      else if byteOffset > b1.byteLength then (Throw(RangeError), b1)
      else
        var b2 := if length.Some? then ActAll(b1, length.value.actions) else b1;
        match (if length.Some? then IndexOf(length.value) else Ok(b1.byteLength - byteOffset))
        case Throw(e) => (Throw(e), b2)
        case Ok(n) =>
          if length.Some? && byteOffset + n > b1.byteLength then (Throw(RangeError), b2)
          else
            var b3 := ActAll(b2, prototype.actions);
            if prototype.outcome.Throw? then (Throw(prototype.outcome.error), b3)
            else if b3.detached then (Throw(TypeError), b3)
            else if byteOffset > b3.byteLength then (Throw(RangeError), b3)
            else if length.None? then (Ok(View(byteOffset, b3.byteLength - byteOffset, true)), b3)
            else if byteOffset + n > b3.byteLength then (Throw(RangeError), b3)
            else (Ok(View(byteOffset, n, false)), b3)
  }

  // ----- views stay inside their buffers -----

  /** A view over a fixed-length buffer lies inside it until the buffer is detached. */
  ghost predicate ViewOk(b: BufferState, v: View) {
    b.resizable || b.detached || v.byteOffset + v.byteLength <= |b.bytes|
  }

  lemma ActAllKeepsView(b: BufferState, actions: seq<Action>, v: View)
    requires Consistent(b) && ViewOk(b, v)
    ensures Consistent(ActAll(b, actions)) && ViewOk(ActAll(b, actions), v)
  {
    ActAllKeeps(b, actions);
    if b.detached && !b.resizable { DetachedForGood(b, actions); }
  }

  /** A constructed view lies inside the buffer as it is after every coercion and the prototype lookup. */
  lemma ConstructedInside(b: BufferState, offset: Coercion<Number>, length: Option<Coercion<Number>>, prototype: Coercion<()>)
    requires Consistent(b)
    ensures var (r, after) := Construct(b, offset, length, prototype);
      && Consistent(after)
      && (r.Ok? ==> !after.detached && r.value.byteOffset + r.value.byteLength <= |after.bytes| && ViewOk(after, r.value))
      && (r.Ok? && length.None? ==> r.value.byteOffset + r.value.byteLength == |after.bytes|)
  {
    hide ActAll;
    var b1 := ActAll(b, offset.actions);
    ActAllKeeps(b, offset.actions);
    if length.Some? {
      ActAllKeeps(b1, length.value.actions);
      ActAllKeeps(ActAll(b1, length.value.actions), prototype.actions);
    } else {
      ActAllKeeps(b1, prototype.actions);
    }
  }

  /** The bytes a view shows at this moment; None when it does not lie inside its buffer, or there is no buffer. */
  function Shown(b: BufferState, v: View): Option<seq<byte>> {
    var end := if v.autoLength && b.resizable then |b.bytes| else v.byteOffset + v.byteLength;
    if b.detached || v.byteOffset > end || end > |b.bytes| then None else Some(b.bytes[v.byteOffset..end])
  }

  /** A bounds check accepts exactly the elements among the bytes the view shows, and says where in the buffer those
      bytes stand. */
  lemma CheckBoundsExact(b: BufferState, v: View, index: nat, size: nat)
    requires Consistent(b) && ViewOk(b, v)
    ensures CheckBounds(b, v, index, size).Ok? <==> Shown(b, v).Some? && index + size <= |Shown(b, v).value|
    ensures CheckBounds(b, v, index, size).Ok? ==>
      var base := CheckBounds(b, v, index, size).value;
      base + size <= |b.bytes| && b.bytes[base..base + size] == Shown(b, v).value[index..index + size]
  {
    if Shown(b, v).Some? && index + size <= |Shown(b, v).value| {
      SliceOfSlice(b.bytes, v.byteOffset, v.byteOffset + |Shown(b, v).value|, index, index + size);
    }
  }

  /** A validated get lies within the buffer's current length, whatever the coercion did to the buffer. */
  lemma ValidatedGetInBounds(b: BufferState, v: View, offset: Coercion<Number>, size: nat)
    requires Consistent(b) && ViewOk(b, v)
    ensures var (r, after) := ValidateGet(b, Some(v), offset, size);
      && Consistent(after) && ViewOk(after, v)
      && (r.Ok? ==> !after.detached && r.value + size <= |after.bytes|)
  {
    hide ActAll, CheckBounds;
    var b1 := ActAll(b, offset.actions);
    ActAllKeepsView(b, offset.actions, v);
    if IndexOf(offset).Ok? { CheckBoundsExact(b1, v, IndexOf(offset).value, size); }
  }

  lemma ValidatedSetInBounds<T>(b: BufferState, v: View, offset: Coercion<Number>, value: Coercion<T>, size: nat)
    requires Consistent(b) && ViewOk(b, v)
    ensures var (r, after) := ValidateSet(b, Some(v), offset, value, size);
      && Consistent(after) && ViewOk(after, v)
      && (r.Ok? ==> !after.detached && r.value.0 + size <= |after.bytes|)
  {
    hide ActAll, CheckBounds;
    var b1 := ActAll(b, offset.actions);
    ActAllKeepsView(b, offset.actions, v);
    ActAllKeepsView(b1, value.actions, v);
    if IndexOf(offset).Ok? { CheckBoundsExact(ActAll(b1, value.actions), v, IndexOf(offset).value, size); }
  }

  // ----- runs over one buffer and its views -----

  datatype Event =
    | UserAction(a: Action)
    | NewView(offset: Coercion<Number>, length: Option<Coercion<Number>>, prototype: Coercion<()>)
    | GetElement(view: nat, offset: Coercion<Number>, size: nat)
    | SetElement(view: nat, offset: Coercion<Number>, value: Coercion<seq<byte>>)

  datatype World = World(buffer: BufferState, views: seq<View>)

  /** What writing encoded bytes does: only indices inside the buffer are stored to. */
  function Stored(bytes: seq<byte>, base: nat, data: seq<byte>): (r: seq<byte>)
    ensures |r| == |bytes|
    ensures forall k :: 0 <= k < |bytes| ==> r[k] == if base <= k < base + |data| then data[k - base] else bytes[k]
  {
    seq(|bytes|, k requires 0 <= k < |bytes| => if base <= k < base + |data| then data[k - base] else bytes[k])
  }

  function Step(w: World, e: Event): World {
    match e
    case UserAction(a) => w.(buffer := Act(w.buffer, a))
    case NewView(offset, length, prototype) =>
      var (r, after) := Construct(w.buffer, offset, length, prototype);
      World(after, if r.Ok? then w.views + [r.value] else w.views)
    case GetElement(i, offset, size) =>
      if i < |w.views| then w.(buffer := ValidateGet(w.buffer, Some(w.views[i]), offset, size).1) else w
    case SetElement(i, offset, value) =>
      if i >= |w.views| then w else
      var size := if value.outcome.Ok? then |value.outcome.value| else 1;
      var (r, after) := ValidateSet(w.buffer, Some(w.views[i]), offset, value, size);
      w.(buffer := if r.Ok? then after.(bytes := Stored(after.bytes, r.value.0, r.value.1)) else after)
  }

  function Steps(w: World, es: seq<Event>): World
    decreases |es|
  {
    if es == [] then w else Steps(Step(w, es[0]), es[1..])
  }

  ghost predicate WorldOk(w: World) {
    Consistent(w.buffer) && forall i :: 0 <= i < |w.views| ==> ViewOk(w.buffer, w.views[i])
  }

  lemma NewViewOk(w: World, offset: Coercion<Number>, length: Option<Coercion<Number>>, prototype: Coercion<()>)
    requires WorldOk(w)
    ensures WorldOk(Step(w, NewView(offset, length, prototype)))
  {
    hide ActAll;
    ConstructedInside(w.buffer, offset, length, prototype);
    forall i | 0 <= i < |w.views| ensures ViewOk(Construct(w.buffer, offset, length, prototype).1, w.views[i]) {
      var b1 := ActAll(w.buffer, offset.actions);
      var v := w.views[i];
      ActAllKeepsView(w.buffer, offset.actions, v);
      if length.Some? {
        ActAllKeepsView(b1, length.value.actions, v);
        ActAllKeepsView(ActAll(b1, length.value.actions), prototype.actions, v);
      } else {
        ActAllKeepsView(b1, prototype.actions, v);
      }
    }
  }

  lemma StepOk(w: World, e: Event)
    requires WorldOk(w)
    ensures WorldOk(Step(w, e))
  {
    hide ActAll, ValidateGet, ValidateSet, Construct, ViewOk;
    match e
    case NewView(offset, length, prototype) => NewViewOk(w, offset, length, prototype);
    case UserAction(a) => ActionOk(w, a);
    case GetElement(i, offset, size) =>
      if i < |w.views| {
        forall j | 0 <= j < |w.views| ensures ViewOk(Step(w, e).buffer, w.views[j]) && Consistent(Step(w, e).buffer) {
          ValidatedGetInBounds(w.buffer, w.views[j], offset, size);
          SameAfterGet(w.buffer, w.views[i], w.views[j], offset, size);
        }
      }
    case SetElement(i, offset, value) =>
      if i < |w.views| {
        forall j | 0 <= j < |w.views| ensures ViewOk(Step(w, e).buffer, w.views[j]) && Consistent(Step(w, e).buffer) {
          SetKeepsView(w, i, j, offset, value);
        }
      }
  }

  lemma ActionOk(w: World, a: Action)
    requires WorldOk(w)
    ensures WorldOk(Step(w, UserAction(a)))
  {
  }

  lemma SameAfterGet(b: BufferState, v: View, u: View, offset: Coercion<Number>, size: nat)
    ensures ValidateGet(b, Some(v), offset, size).1 == ValidateGet(b, Some(u), offset, size).1
  {
    hide ActAll;
  }

  lemma SetKeepsView(w: World, i: nat, j: nat, offset: Coercion<Number>, value: Coercion<seq<byte>>)
    requires WorldOk(w) && i < |w.views| && j < |w.views|
    ensures var after := Step(w, SetElement(i, offset, value)).buffer;
            Consistent(after) && ViewOk(after, w.views[j])
  {
    hide ActAll, CheckBounds;
    var b1 := ActAll(w.buffer, offset.actions);
    ActAllKeepsView(w.buffer, offset.actions, w.views[j]);
    ActAllKeepsView(b1, value.actions, w.views[j]);
  }

  lemma {:induction false} StepsOk(w: World, es: seq<Event>)
    requires WorldOk(w)
    ensures WorldOk(Steps(w, es))
    decreases |es|
  {
    hide WorldOk, Step;
    if es != [] {
      StepOk(w, es[0]);
      StepsOk(Step(w, es[0]), es[1..]);
    }
  }

  /** After any run of resizes, detaches, constructions, gets and sets, a get that is let through reads inside the
      buffer as it stands at that moment. */
  lemma EveryGetInBounds(b: BufferState, es: seq<Event>, i: nat, offset: Coercion<Number>, size: nat)
    requires Consistent(b)
    requires i < |Steps(World(b, []), es).views|
    ensures var w := Steps(World(b, []), es);
            var (r, after) := ValidateGet(w.buffer, Some(w.views[i]), offset, size);
            r.Ok? ==> !after.detached && r.value + size <= |after.bytes|
  {
    hide Steps, ValidateGet;
    StepsOk(World(b, []), es);
    var w := Steps(World(b, []), es);
    ValidatedGetInBounds(w.buffer, w.views[i], offset, size);
  }

  /** The same for sets. */
  lemma EverySetInBounds<T>(b: BufferState, es: seq<Event>, i: nat, offset: Coercion<Number>, value: Coercion<T>, size: nat)
    requires Consistent(b)
    requires i < |Steps(World(b, []), es).views|
    ensures var w := Steps(World(b, []), es);
            var (r, after) := ValidateSet(w.buffer, Some(w.views[i]), offset, value, size);
            r.Ok? ==> !after.detached && r.value.0 + size <= |after.bytes|
  {
    hide Steps, ValidateSet;
    StepsOk(World(b, []), es);
    var w := Steps(World(b, []), es);
    ValidatedSetInBounds(w.buffer, w.views[i], offset, value, size);
  }
}

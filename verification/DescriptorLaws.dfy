/** Round trip, frame, key order, and refinement of an abstract map from keys to descriptors. */
module DescriptorLaws {
  import opened Prelude
  import opened OrderedMap
  import opened Descriptors

  // ----- hidden names -----

  lemma AccessorKeysApart(j: string, k: string)
    ensures GetterKey(j) != SetterKey(k)
    ensures GetterKey(k) != k && SetterKey(k) != k
    ensures GetterKey(j) == GetterKey(k) <==> j == k
    ensures SetterKey(j) == SetterKey(k) <==> j == k
  {
    assert GetterKey(j)[2] == 'g' && SetterKey(k)[2] == 's';
    assert |GetterKey(k)| == 6 + |k| == |SetterKey(k)|;
    assert GetterKey(j)[6..] == j && GetterKey(k)[6..] == k;
    assert SetterKey(j)[6..] == j && SetterKey(k)[6..] == k;
  }

  /** What the three entries of a key hold after a descriptor is written, and that no other entry changes. */
  lemma WrittenEntries(m: Props, key: string, d: Desc)
    ensures var r := WriteDesc(m, key, d);
      && Get(r, key) == Some(InlineValue(d))
      && Get(r, GetterKey(key)) == HiddenGet(d)
      && Get(r, SetterKey(key)) == HiddenSet(d)
  {
    WrittenEntry(m, key, d, key);
    WrittenEntry(m, key, d, GetterKey(key));
    WrittenEntry(m, key, d, SetterKey(key));
    AccessorKeysApart(key, key);
  }

  lemma WrittenEntry(m: Props, key: string, d: Desc, j: string)
    ensures Get(WriteDesc(m, key, d), j)
         == if j == key then Some(InlineValue(d))
            else if j == SetterKey(key) then HiddenSet(d)
            else if j == GetterKey(key) then HiddenGet(d)
            else Get(m, j)
  {
    var a := PutOrRemove(m, GetterKey(key), HiddenGet(d));
    var b := PutOrRemove(a, SetterKey(key), HiddenSet(d));
    GetPut(b, key, InlineValue(d), j);
    if HiddenSet(d).Some? { GetPut(a, SetterKey(key), HiddenSet(d).value, j); } else { GetRemove(a, SetterKey(key), j); }
    if HiddenGet(d).Some? { GetPut(m, GetterKey(key), HiddenGet(d).value, j); } else { GetRemove(m, GetterKey(key), j); }
  }

  lemma ErasedEntry(m: Props, key: string, j: string)
    ensures Get(Erase(m, key), j) == if j in {key, GetterKey(key), SetterKey(key)} then None else Get(m, j)
  {
    GetRemove(m, key, j);
    GetRemove(Remove(m, key), GetterKey(key), j);
    GetRemove(Remove(Remove(m, key), GetterKey(key)), SetterKey(key), j);
  }

  // ----- round trip -----

  /** The descriptors whose data is not itself an internal property, or whose flags force it to be wrapped. */
  predicate Storable(d: Desc) {
    d.kind.Data? && d.attrs == WEC ==> !d.kind.value.Property?
  }

  /** Reading back a written descriptor gives exactly that descriptor, if and only if it is storable. */
  lemma RoundTrip(m: Props, key: string, d: Desc)
    ensures ReadDesc(WriteDesc(m, key, d), key) == Some(d) <==> Storable(d)
  {
    WrittenEntries(m, key, d);
    if !Storable(d) {
      if d.kind.value.value.Some? { NotOwnPart(d.kind.value); }
    }
  }

  function Depth(v: Value): nat {
    match v
    case Property(Some(inner), _, _, _) => 1 + Depth(inner)
    case _ => 0
  }

  lemma NotOwnPart(v: Value)
    requires v.Property? && v.value.Some?
    ensures v.value.value != v
  {
    assert Depth(v) == 1 + Depth(v.value.value);
  }

  // ----- frame -----

  predicate Unrelated(j: string, k: string) {
    && j != k && j != GetterKey(k) && j != SetterKey(k) && k != GetterKey(j) && k != SetterKey(j)
  }

  lemma SameReads(m: Props, r: Props, j: string)
    requires Get(r, j) == Get(m, j)
    requires Get(r, GetterKey(j)) == Get(m, GetterKey(j)) && Get(r, SetterKey(j)) == Get(m, SetterKey(j))
    ensures ReadDesc(r, j) == ReadDesc(m, j)
  {
  }

  /** Writing one key's descriptor changes no other key's, unless one name is the accessor key of the other. */
  lemma WriteFrame(m: Props, key: string, d: Desc, j: string)
    requires Unrelated(j, key)
    ensures ReadDesc(WriteDesc(m, key, d), j) == ReadDesc(m, j)
  {
    WrittenEntry(m, key, d, j);
    WrittenEntry(m, key, d, GetterKey(j));
    WrittenEntry(m, key, d, SetterKey(j));
    AccessorKeysApart(j, key);
    AccessorKeysApart(key, j);
    SameReads(m, WriteDesc(m, key, d), j);
  }

  lemma EraseFrame(m: Props, key: string, j: string)
    requires Unrelated(j, key)
    ensures ReadDesc(Erase(m, key), j) == ReadDesc(m, j)
  {
    ErasedEntry(m, key, j);
    ErasedEntry(m, key, GetterKey(j));
    ErasedEntry(m, key, SetterKey(j));
    AccessorKeysApart(j, key);
    AccessorKeysApart(key, j);
    SameReads(m, Erase(m, key), j);
  }

  lemma RemoveHiddenFrame(m: Props, key: string, hidden: string, j: string)
    requires Unrelated(j, key) && hidden in {GetterKey(key), SetterKey(key)}
    ensures ReadDesc(Remove(m, hidden), j) == ReadDesc(m, j)
  {
    GetRemove(m, hidden, j);
    GetRemove(m, hidden, GetterKey(j));
    GetRemove(m, hidden, SetterKey(j));
    AccessorKeysApart(j, key);
    AccessorKeysApart(key, j);
    SameReads(m, Remove(m, hidden), j);
  }

  /** The frame holds for every map and descriptor exactly for the unrelated names: on the others, writing an
      accessor into an empty map makes a descriptor appear. */
  lemma FrameIff(key: string, j: string)
    ensures (forall m, d :: ReadDesc(WriteDesc(m, key, d), j) == ReadDesc(m, j)) <==> Unrelated(j, key)
  {
    if Unrelated(j, key) {
      forall m, d ensures ReadDesc(WriteDesc(m, key, d), j) == ReadDesc(m, j) { WriteFrame(m, key, d, j); }
    } else {
      AppearsOnRelated(key, j);
    }
  }

  lemma AppearsOnRelated(key: string, j: string)
    requires !Unrelated(j, key)
    ensures ReadDesc([], j) == None
    ensures ReadDesc(WriteDesc([], key, Desc(Accessor(Some(Plain(0)), Some(Plain(0))), WEC)), j).Some?
  {
    hide WriteDesc;
    WrittenEntries([], key, Desc(Accessor(Some(Plain(0)), Some(Plain(0))), WEC));
  }

  // ----- order of the visible keys -----

  predicate Visible(k: string) {
    !("__get_" <= k) && !("__set_" <= k)
  }

  lemma VisibleUnrelated(j: string, k: string)
    requires Visible(j) && Visible(k) && j != k
    ensures Unrelated(j, k)
  {
  }

  lemma WriteKeepsOrder(m: Props, key: string, d: Desc)
    requires Visible(key)
    ensures Keys(WriteDesc(m, key, d), Visible)
         == if Get(m, key) == None then Keys(m, Visible) + [key] else Keys(m, Visible)
  {
    var g, s := GetterKey(key), SetterKey(key);
    AccessorKeysApart(key, key);
    var a := PutOrRemove(m, g, HiddenGet(d));
    var b := PutOrRemove(a, s, HiddenSet(d));
    if HiddenGet(d).Some? {
      KeysPut(m, g, HiddenGet(d).value, Visible);
      GetPut(m, g, HiddenGet(d).value, key);
    } else {
      KeysRemoveHidden(m, g, Visible);
      GetRemove(m, g, key);
    }
    if HiddenSet(d).Some? {
      KeysPut(a, s, HiddenSet(d).value, Visible);
      GetPut(a, s, HiddenSet(d).value, key);
    } else {
      KeysRemoveHidden(a, s, Visible);
      GetRemove(a, s, key);
    }
    KeysPut(b, key, InlineValue(d), Visible);
  }

  /** Changing a flag of a present key leaves the visible keys in their order. */
  lemma MarkKeepsOrder(m: Props, key: string, f: Flag, on: bool)
    requires Visible(key) && Get(m, key).Some?
    ensures Keys(Mark(m, key, f, on), Visible) == Keys(m, Visible)
  {
    if ReadDesc(m, key).Some? {
      var d := ReadDesc(m, key).value;
      WriteKeepsOrder(m, key, d.(attrs := SetFlag(d.attrs, f, on)));
    }
  }

  // ----- flags are independent bits -----

  /** A second write of the same kind overrides the first, entry order included. */
  lemma WriteTwice(m: Props, key: string, d: Desc, e: Desc)
    requires d.kind == e.kind
    ensures WriteDesc(WriteDesc(m, key, d), key, e) == WriteDesc(m, key, e)
  {
    var g, s := GetterKey(key), SetterKey(key);
    var b := PutOrRemove(PutOrRemove(m, g, HiddenGet(d)), s, HiddenSet(d));
    var r := WriteDesc(m, key, d);
    assert r == Put(b, key, InlineValue(d));
    WrittenEntries(m, key, d);
    if HiddenGet(d).Some? { PutSame(r, g, HiddenGet(d).value); } else { RemoveAbsent(r, g); }
    assert PutOrRemove(r, g, HiddenGet(e)) == r;
    if HiddenSet(d).Some? { PutSame(r, s, HiddenSet(d).value); } else { RemoveAbsent(r, s); }
    assert PutOrRemove(r, s, HiddenSet(e)) == r;
    PutPut(b, key, InlineValue(d), InlineValue(e));
  }

  /** Data stored in the map is never itself an internal property. */
  predicate PlainData(d: Option<Desc>) {
    d.Some? && d.value.kind.Data? ==> !d.value.kind.value.Property?
  }

  /** Marking keeps the kind, sets that flag and no other, and reports it. */
  lemma MarkSetsOneFlag(m: Props, key: string, f: Flag, on: bool, other: Flag)
    requires PlainData(ReadDesc(m, key)) && ReadDesc(m, key).Some?
    ensures var (old_, new_) := (ReadDesc(m, key).value, ReadDesc(Mark(m, key, f, on), key));
      && new_.Some? && new_.value.kind == old_.kind
      && HasFlag(new_.value.attrs, f) == on
      && (other != f ==> HasFlag(new_.value.attrs, other) == HasFlag(old_.attrs, other))
      && HasMark(Mark(m, key, f, on), key, f) == (!on && !(f.Writable? && old_.kind.Accessor?))
  {
    var d := ReadDesc(m, key).value;
    RoundTrip(m, key, d.(attrs := SetFlag(d.attrs, f, on)));
  }

  /** Marks of different flags commute, as whole maps. */
  lemma MarksCommute(m: Props, key: string, f1: Flag, on1: bool, f2: Flag, on2: bool)
    requires PlainData(ReadDesc(m, key)) && f1 != f2
    ensures Mark(Mark(m, key, f1, on1), key, f2, on2) == Mark(Mark(m, key, f2, on2), key, f1, on1)
  {
    if ReadDesc(m, key).Some? {
      MarkTwice(m, key, f1, on1, f2, on2);
      MarkTwice(m, key, f2, on2, f1, on1);
    }
  }

  lemma MarkTwice(m: Props, key: string, f1: Flag, on1: bool, f2: Flag, on2: bool)
    requires PlainData(ReadDesc(m, key)) && ReadDesc(m, key).Some?
    ensures var d := ReadDesc(m, key).value;
            Mark(Mark(m, key, f1, on1), key, f2, on2) == WriteDesc(m, key, d.(attrs := SetFlag(SetFlag(d.attrs, f1, on1), f2, on2)))
  {
    var d := ReadDesc(m, key).value;
    var d1 := d.(attrs := SetFlag(d.attrs, f1, on1));
    RoundTrip(m, key, d1);
    WriteTwice(m, key, d1, d1.(attrs := SetFlag(d1.attrs, f2, on2)));
  }

  // ----- refinement -----

  /** The abstract state: what each visible key's descriptor is. */
  type Abstract = map<string, Desc>

  function At(a: Abstract, k: string): Option<Desc> {
    if k in a then Some(a[k]) else None
  }

  /** Names that do not interfere: no one is the accessor key of another. */
  ghost predicate Apart(names: iset<string>) {
    forall j, k :: j in names && k in names && j != k ==> Unrelated(j, k)
  }

  ghost predicate Refines(m: Props, a: Abstract, names: iset<string>) {
    forall k :: k in names ==> ReadDesc(m, k) == At(a, k) && PlainData(At(a, k))
  }

  datatype Op =
    | Write(key: string, d: Desc)
    | SetG(key: string, v: Value)
    | SetS(key: string, v: Value)
    | RemoveG(key: string)
    | RemoveS(key: string)
    | MarkOp(key: string, f: Flag, on: bool)
    | WriteAttrs(key: string, attrs: Attrs)
    | RemoveProperty(key: string)

  /** The operation on the object's map. */
  function Perform(m: Props, op: Op): Props {
    match op
    case Write(k, d) => WriteDesc(m, k, d)
    case SetG(k, v) => SetGetter(m, k, v)
    case SetS(k, v) => SetSetter(m, k, v)
    case RemoveG(k) => RemoveGetter(m, k)
    case RemoveS(k) => RemoveSetter(m, k)
    case MarkOp(k, f, on) => Mark(m, k, f, on)
    case WriteAttrs(k, attrs) => WithAttrs(m, k, _ => attrs)
    case RemoveProperty(k) => Erase(m, k)
  }

  /** What becomes of the one descriptor the operation names. */
  function Becomes(d: Option<Desc>, op: Op): Option<Desc> {
    match op
    case Write(_, e) => Some(e)
    case SetG(_, v) =>
      Some(match d
           case Some(Desc(Accessor(_, setFn), attrs)) => Desc(Accessor(Some(v), setFn), attrs)
           case _ => Desc(Accessor(Some(v), None), EC))
    case SetS(_, v) =>
      Some(match d
           case Some(Desc(Accessor(getFn, _), attrs)) => Desc(Accessor(getFn, Some(v)), attrs)
           case _ => Desc(Accessor(None, Some(v)), EC))
    case RemoveG(_) =>
      (match d
       case Some(Desc(Accessor(_, setFn), attrs)) => if setFn.Some? then Some(Desc(Accessor(None, setFn), attrs)) else None
       case _ => d)
    case RemoveS(_) =>
      (match d
       case Some(Desc(Accessor(getFn, _), attrs)) => if getFn.Some? then Some(Desc(Accessor(getFn, None), attrs)) else None
       case _ => d)
    case MarkOp(_, f, on) => if d.Some? then Some(d.value.(attrs := SetFlag(d.value.attrs, f, on))) else None
    case WriteAttrs(_, attrs) => if d.Some? then Some(d.value.(attrs := attrs)) else None
    case RemoveProperty(_) => None
  }

  function Specified(a: Abstract, op: Op): Abstract {
    match Becomes(At(a, op.key), op)
    case Some(d) => a[op.key := d]
    case None => a - {op.key}
  }

  predicate Allowed(op: Op) {
    op.Write? ==> PlainData(Some(op.d))
  }

  lemma LookupsMatchDesc(m: Props, key: string)
    ensures match ReadDesc(m, key)
            case Some(Desc(Accessor(getFn, setFn), _)) => LookupGetter(m, key) == getFn && LookupSetter(m, key) == setFn
            case _ => LookupGetter(m, key) == None && LookupSetter(m, key) == None
  {
  }

  lemma PerformAtKey(m: Props, op: Op)
    requires PlainData(ReadDesc(m, op.key)) && Allowed(op)
    ensures ReadDesc(Perform(m, op), op.key) == Becomes(ReadDesc(m, op.key), op)
  {
    hide WriteDesc, Erase, LookupGetter, LookupSetter;
    var key, d := op.key, ReadDesc(m, op.key);
    LookupsMatchDesc(m, key);
    match op
    case Write(_, e) => RoundTrip(m, key, e);
    case SetG(_, v) => RoundTrip(m, key, Desc(Accessor(Some(v), LookupSetter(m, key)), AccessorAttrs(m, key)));
    case SetS(_, v) => RoundTrip(m, key, Desc(Accessor(LookupGetter(m, key), Some(v)), AccessorAttrs(m, key)));
    case MarkOp(_, f, on) => if d.Some? { RoundTrip(m, key, d.value.(attrs := SetFlag(d.value.attrs, f, on))); }
    case WriteAttrs(_, attrs) => if d.Some? { RoundTrip(m, key, d.value.(attrs := attrs)); }
    case RemoveProperty(_) => ErasedAtKey(m, key);
    case RemoveG(_) => RemoveAtKey(m, op);
    case RemoveS(_) => RemoveAtKey(m, op);
  }

  lemma ErasedAtKey(m: Props, key: string)
    ensures ReadDesc(Erase(m, key), key) == None
  {
    ErasedEntry(m, key, key);
    ErasedEntry(m, key, GetterKey(key));
    ErasedEntry(m, key, SetterKey(key));
  }

  lemma RemoveAtKey(m: Props, op: Op)
    requires op.RemoveG? || op.RemoveS?
    ensures ReadDesc(Perform(m, op), op.key) == Becomes(ReadDesc(m, op.key), op)
  {
    hide WriteDesc, Erase;
    var key := op.key;
    match ReadDesc(m, key)
    case Some(Desc(Accessor(getFn, setFn), attrs)) =>
      ErasedAtKey(m, key);
      RoundTrip(m, key, Desc(Accessor(None, setFn), attrs));
      RoundTrip(m, key, Desc(Accessor(getFn, None), attrs));
    case _ =>
      var hidden := if op.RemoveG? then GetterKey(key) else SetterKey(key);
      RemoveAbsent(m, hidden);
  }

  lemma PerformFrame(m: Props, op: Op, j: string)
    requires Unrelated(j, op.key)
    ensures ReadDesc(Perform(m, op), j) == ReadDesc(m, j)
  {
    hide WriteDesc, Erase, ReadDesc;
    var key := op.key;
    EraseFrame(m, key, j);
    RemoveHiddenFrame(m, key, GetterKey(key), j);
    RemoveHiddenFrame(m, key, SetterKey(key), j);
    forall d ensures ReadDesc(WriteDesc(m, key, d), j) == ReadDesc(m, j) { WriteFrame(m, key, d, j); }
  }

  /** Every operation on one of the names does to the abstract state what it should, and nothing else. */
  lemma PerformRefines(m: Props, a: Abstract, names: iset<string>, op: Op)
    requires Apart(names) && Refines(m, a, names) && Allowed(op) && op.key in names
    ensures Refines(Perform(m, op), Specified(a, op), names)
  {
    hide Perform, ReadDesc, Unrelated;
    var r, b := Perform(m, op), Specified(a, op);
    forall k | k in names ensures ReadDesc(r, k) == At(b, k) && PlainData(At(b, k)) {
      assert ReadDesc(m, k) == At(a, k) && PlainData(At(a, k));
      if k == op.key {
        PerformAtKey(m, op);
        BecomesPlain(At(a, k), op);
      } else {
        PerformFrame(m, op, k);
      }
    }
  }

  lemma BecomesPlain(d: Option<Desc>, op: Op)
    requires PlainData(d) && Allowed(op)
    ensures PlainData(Becomes(d, op))
  {
  }

  function PerformAll(m: Props, ops: seq<Op>): Props
    decreases |ops|
  {
    if ops == [] then m else PerformAll(Perform(m, ops[0]), ops[1..])
  }

  function SpecifiedAll(a: Abstract, ops: seq<Op>): Abstract
    decreases |ops|
  {
    if ops == [] then a else SpecifiedAll(Specified(a, ops[0]), ops[1..])
  }

  /** Any sequence of operations on such names refines the same sequence on the abstract map. */
  lemma {:induction false} RunRefines(m: Props, a: Abstract, names: iset<string>, ops: seq<Op>)
    requires Apart(names) && Refines(m, a, names)
    requires forall k :: 0 <= k < |ops| ==> Allowed(ops[k]) && ops[k].key in names
    ensures Refines(PerformAll(m, ops), SpecifiedAll(a, ops), names)
    decreases |ops|
  {
    hide Apart, Refines;
    if ops != [] {
      PerformRefines(m, a, names, ops[0]);
      RunRefines(Perform(m, ops[0]), Specified(a, ops[0]), names, ops[1..]);
    }
  }

  /** The operation behaves on a set of names, from every state. */
  ghost predicate Behaves(op: Op, names: iset<string>) {
    forall m, a :: Refines(m, a, names) ==> Refines(Perform(m, op), Specified(a, op), names)
  }

  /** The refinement holds for all operations on a set of names exactly when they are apart. */
  lemma RefinesIffApart(names: iset<string>)
    ensures (forall op :: Allowed(op) && op.key in names ==> Behaves(op, names)) <==> Apart(names)
  {
    if Apart(names) {
      forall op, m, a | Allowed(op) && op.key in names && Refines(m, a, names)
        ensures Refines(Perform(m, op), Specified(a, op), names)
      {
        PerformRefines(m, a, names, op);
      }
    } else {
      var j, k :| j in names && k in names && j != k && !Unrelated(j, k);
      var op := Write(k, Desc(Accessor(Some(Plain(0)), Some(Plain(0))), WEC));
      AppearsOnRelated(k, j);
      assert Refines([], map[], names);
      assert ReadDesc(Perform([], op), j) != At(Specified(map[], op), j);
      assert !Behaves(op, names);
    }
  }

  /** Names without the accessor prefixes are apart. */
  lemma VisibleApart()
    ensures Apart(iset k | Visible(k))
  {
    forall j, k | Visible(j) && Visible(k) && j != k ensures Unrelated(j, k) { VisibleUnrelated(j, k); }
  }

  /** Setting a getter and then a setter gives the same descriptor as the other order. */
  lemma SetOrderIrrelevant(m: Props, key: string, g: Value, s: Value)
    requires PlainData(ReadDesc(m, key))
    ensures ReadDesc(SetSetter(SetGetter(m, key, g), key, s), key) == ReadDesc(SetGetter(SetSetter(m, key, s), key, g), key)
  {
    hide SetGetter, SetSetter, ReadDesc;
    PerformAtKey(m, SetG(key, g));
    PerformAtKey(SetGetter(m, key, g), SetS(key, s));
    PerformAtKey(m, SetS(key, s));
    PerformAtKey(SetSetter(m, key, s), SetG(key, g));
  }

  // ----- what goes without an inline property -----

  predicate Bare(v: Option<Value>) {
    v.Some? && v.value.Plain?
  }

  /** A bare value is a data property with every flag set; hidden accessors without an inline property make an accessor
      that is enumerable and configurable; and nothing makes nothing. */
  lemma ReadsWithoutProperty(m: Props, key: string)
    requires Get(m, key) == None || Bare(Get(m, key))
    ensures var getFn, setFn := Get(m, "__get_" + key), Get(m, "__set_" + key);
      ReadDesc(m, key) ==
        if getFn.Some? || setFn.Some? then Some(Desc(Accessor(getFn, setFn), Attrs(false, true, true)))
        else if Get(m, key).Some? then Some(Desc(Data(Get(m, key).value), Attrs(true, true, true)))
        else None
  {
  }

  /** Data with every flag set is stored bare, and everything else as an inline property with its flags; accessors under
      the hidden keys besides. */
  lemma StoredAs(m: Props, key: string, d: Desc)
    ensures var r := WriteDesc(m, key, d);
      match d.kind
      case Data(v) =>
        && Get(r, key) == Some(if d.attrs == Attrs(true, true, true) then v else Property(Some(v), None, None, d.attrs))
        && Get(r, "__get_" + key) == None && Get(r, "__set_" + key) == None
      case Accessor(getFn, setFn) =>
        && Get(r, key) == Some(Property(None, getFn, setFn, d.attrs))
        && Get(r, "__get_" + key) == getFn && Get(r, "__set_" + key) == setFn
  {
    hide WriteDesc;
    WrittenEntries(m, key, d);
  }

  /** A getter or setter given to a key that has no accessor yet makes one that is enumerable and configurable; given to
      an accessor it keeps the flags. */
  lemma AccessorFlags(m: Props, key: string, v: Value)
    ensures var before, getting, setting := ReadDesc(m, key), ReadDesc(SetGetter(m, key, v), key), ReadDesc(SetSetter(m, key, v), key);
      var attrs := if before.Some? && before.value.kind.Accessor? then before.value.attrs else Attrs(false, true, true);
      && getting.Some? && getting.value.attrs == attrs && getting.value.kind.Accessor? && getting.value.kind.getFn == Some(v)
      && setting.Some? && setting.value.attrs == attrs && setting.value.kind.Accessor? && setting.value.kind.setFn == Some(v)
  {
    hide WriteDesc, ReadDesc;
    RoundTrip(m, key, Desc(Accessor(Some(v), LookupSetter(m, key)), AccessorAttrs(m, key)));
    RoundTrip(m, key, Desc(Accessor(LookupGetter(m, key), Some(v)), AccessorAttrs(m, key)));
  }

  /** A mark is found exactly on a present key whose flag is off, and the read-only mark on data only. */
  lemma MarkedIff(m: Props, key: string)
    ensures HasMark(m, key, Writable) <==>
      ReadDesc(m, key).Some? && ReadDesc(m, key).value.kind.Data? && !ReadDesc(m, key).value.attrs.writable
    ensures HasMark(m, key, Enumerable) <==> ReadDesc(m, key).Some? && !ReadDesc(m, key).value.attrs.enumerable
    ensures HasMark(m, key, Configurable) <==> ReadDesc(m, key).Some? && !ReadDesc(m, key).value.attrs.configurable
  {
    hide ReadDesc;
  }
}

/** Property descriptors, and their encoding in an object's map by an inline property and hidden accessor keys. */
module Descriptors {
  import opened Prelude
  import opened OrderedMap

  datatype Attrs = Attrs(writable: bool, enumerable: bool, configurable: bool)

  const WEC: Attrs := Attrs(true, true, true)
  const EC: Attrs := Attrs(false, true, true)

  datatype Value =
    | Plain(id: int)
    | Property(value: Option<Value>, getter: Option<Value>, setter: Option<Value>, attrs: Attrs)

  datatype Kind = Data(value: Value) | Accessor(getFn: Option<Value>, setFn: Option<Value>)

  datatype Desc = Desc(kind: Kind, attrs: Attrs)

  type Props = OMap<Value>

  function GetterKey(k: string): string { "__get_" + k }

  function SetterKey(k: string): string { "__set_" + k }

  function OrElse(a: Option<Value>, b: Option<Value>): Option<Value> {
    if a.Some? then a else b
  }

  // ----- the encoding -----

  /** Build the descriptor of a key from the map. */
  function ReadDesc(m: Props, key: string): Option<Desc> {
    var hiddenGet, hiddenSet := Get(m, GetterKey(key)), Get(m, SetterKey(key));
    var inline: Option<Value> := Get(m, key);
    match inline
    case Some(Property(value, getter, setter, attrs)) =>
      var getFn, setFn := OrElse(getter, hiddenGet), OrElse(setter, hiddenSet);
      if value.None? || getFn.Some? || setFn.Some? then Some(Desc(Accessor(getFn, setFn), attrs))
      else Some(Desc(Data(value.value), attrs))
    case Some(v) =>
      if hiddenGet.Some? || hiddenSet.Some? then Some(Desc(Accessor(hiddenGet, hiddenSet), EC))
      else Some(Desc(Data(v), WEC))
    case None =>
      if hiddenGet.Some? || hiddenSet.Some? then Some(Desc(Accessor(hiddenGet, hiddenSet), EC))
      else None
  }

  function PutOrRemove(m: Props, k: string, v: Option<Value>): Props {
    if v.Some? then Put(m, k, v.value) else Remove(m, k)
  }

  function InlineValue(d: Desc): Value {
    match d.kind
    case Data(v) => if d.attrs == WEC then v else Property(Some(v), None, None, d.attrs)
    case Accessor(getFn, setFn) => Property(None, getFn, setFn, d.attrs)
  }

  function HiddenGet(d: Desc): Option<Value> {
    if d.kind.Accessor? then d.kind.getFn else None
  }

  function HiddenSet(d: Desc): Option<Value> {
    if d.kind.Accessor? then d.kind.setFn else None
  }

  /** The map with a descriptor written into it. */
  function WriteDesc(m: Props, key: string, d: Desc): Props {
    Put(PutOrRemove(PutOrRemove(m, GetterKey(key), HiddenGet(d)), SetterKey(key), HiddenSet(d)), key, InlineValue(d))
  }

  function Erase(m: Props, key: string): Props {
    Remove(Remove(Remove(m, key), GetterKey(key)), SetterKey(key))
  }

  // ----- flag helpers -----

  datatype Flag = Writable | Enumerable | Configurable

  function SetFlag(a: Attrs, f: Flag, on: bool): Attrs {
    match f
    case Writable => a.(writable := on)
    case Enumerable => a.(enumerable := on)
    case Configurable => a.(configurable := on)
  }

  function HasFlag(a: Attrs, f: Flag): bool {
    match f
    case Writable => a.writable
    case Enumerable => a.enumerable
    case Configurable => a.configurable
  }

  function WithAttrs(m: Props, key: string, attrs: Attrs -> Attrs): Props {
    match ReadDesc(m, key)
    case None => m
    case Some(d) => WriteDesc(m, key, d.(attrs := attrs(d.attrs)))
  }

  /** mark_* clears a flag of a present key, unmark_* sets it. */
  function Mark(m: Props, key: string, f: Flag, on: bool): Props {
    WithAttrs(m, key, a => SetFlag(a, f, on))
  }

  /** has_*_mark: the flag is off; an accessor is never read-only. */
  predicate HasMark(m: Props, key: string, f: Flag) {
    match ReadDesc(m, key)
    case None => false
    case Some(d) => !(f.Writable? && d.kind.Accessor?) && !HasFlag(d.attrs, f)
  }

  // ----- accessor helpers -----

  function LookupGetter(m: Props, key: string): Option<Value> {
    var inline: Option<Value> := Get(m, key);
    match inline
    case Some(Property(_, Some(g), _, _)) => Some(g)
    case _ => Get(m, GetterKey(key))
  }

  function LookupSetter(m: Props, key: string): Option<Value> {
    var inline: Option<Value> := Get(m, key);
    match inline
    case Some(Property(_, _, Some(s), _)) => Some(s)
    case _ => Get(m, SetterKey(key))
  }

  function AccessorAttrs(m: Props, key: string): Attrs {
    match ReadDesc(m, key)
    case Some(d) => if d.kind.Accessor? then d.attrs else EC
    case None => EC
  }

  function SetGetter(m: Props, key: string, v: Value): Props {
    WriteDesc(m, key, Desc(Accessor(Some(v), LookupSetter(m, key)), AccessorAttrs(m, key)))
  }

  function SetSetter(m: Props, key: string, v: Value): Props {
    WriteDesc(m, key, Desc(Accessor(LookupGetter(m, key), Some(v)), AccessorAttrs(m, key)))
  }

  function RemoveGetter(m: Props, key: string): Props {
    match ReadDesc(m, key)
    case Some(Desc(Accessor(_, setFn), attrs)) =>
      if setFn.Some? then WriteDesc(m, key, Desc(Accessor(None, setFn), attrs)) else Erase(m, key)
    case _ => Remove(m, GetterKey(key))
  }

  function RemoveSetter(m: Props, key: string): Props {
    match ReadDesc(m, key)
    case Some(Desc(Accessor(getFn, _), attrs)) =>
      if getFn.Some? then WriteDesc(m, key, Desc(Accessor(getFn, None), attrs)) else Erase(m, key)
    case _ => Remove(m, SetterKey(key))
  }

  // ----- the helpers that change an object's map -----

  class PropertyMap {
    const props: IndexMap<Value>

    constructor ()
      ensures fresh(props) && props.entries == []
    {
      props := new IndexMap<Value>();
    }

    method WriteToLegacyMap(key: string, d: Desc)
      modifies props
      ensures props.entries == WriteDesc(old(props.entries), key, d)
    {
      var getterKey, setterKey := GetterKey(key), SetterKey(key);
      match d.kind {
        case Data(v) =>
          props.ShiftRemove(getterKey);
          props.ShiftRemove(setterKey);
          if d.attrs == WEC {
            props.Insert(key, v);
          } else {
            props.Insert(key, Property(Some(v), None, None, d.attrs));
          }
        case Accessor(getFn, setFn) =>
          if getFn.Some? { props.Insert(getterKey, getFn.value); } else { props.ShiftRemove(getterKey); }
          if setFn.Some? { props.Insert(setterKey, setFn.value); } else { props.ShiftRemove(setterKey); }
          props.Insert(key, Property(None, getFn, setFn, d.attrs));
      }
    }

    method WriteAttrs(key: string, attrs: Attrs)
      modifies props
      ensures props.entries == WithAttrs(old(props.entries), key, _ => attrs)
    {
      var d := ReadDesc(props.entries, key);
      if d.Some? { WriteToLegacyMap(key, d.value.(attrs := attrs)); }
    }

    method MarkFlag(key: string, f: Flag, on: bool)
      modifies props
      ensures props.entries == Mark(old(props.entries), key, f, on)
    {
      var d := ReadDesc(props.entries, key);
      if d.Some? { WriteToLegacyMap(key, d.value.(attrs := SetFlag(d.value.attrs, f, on))); }
    }

    method PutGetter(key: string, v: Value)
      modifies props
      ensures props.entries == SetGetter(old(props.entries), key, v)
    {
      var currentSet := LookupSetter(props.entries, key);
      var d := ReadDesc(props.entries, key);
      var attrs := if d.Some? && d.value.kind.Accessor? then d.value.attrs else EC;
      WriteToLegacyMap(key, Desc(Accessor(Some(v), currentSet), attrs));
    }

    method PutSetter(key: string, v: Value)
      modifies props
      ensures props.entries == SetSetter(old(props.entries), key, v)
    {
      var currentGet := LookupGetter(props.entries, key);
      var d := ReadDesc(props.entries, key);
      var attrs := if d.Some? && d.value.kind.Accessor? then d.value.attrs else EC;
      WriteToLegacyMap(key, Desc(Accessor(currentGet, Some(v)), attrs));
    }

    method DropGetter(key: string)
      modifies props
      ensures props.entries == RemoveGetter(old(props.entries), key)
    {
      var d := ReadDesc(props.entries, key);
      if d.Some? && d.value.kind.Accessor? {
        if d.value.kind.setFn.Some? {
          WriteToLegacyMap(key, Desc(Accessor(None, d.value.kind.setFn), d.value.attrs));
        } else {
          RemoveAll(key);
        }
        return;
      }
      props.ShiftRemove(GetterKey(key));
    }

    method DropSetter(key: string)
      modifies props
      ensures props.entries == RemoveSetter(old(props.entries), key)
    {
      var d := ReadDesc(props.entries, key);
      if d.Some? && d.value.kind.Accessor? {
        if d.value.kind.getFn.Some? {
          WriteToLegacyMap(key, Desc(Accessor(d.value.kind.getFn, None), d.value.attrs));
        } else {
          RemoveAll(key);
        }
        return;
      }
      props.ShiftRemove(SetterKey(key));
    }

    method RemoveAll(key: string)
      modifies props
      ensures props.entries == Erase(old(props.entries), key)
    {
      props.ShiftRemove(key);
      props.ShiftRemove(GetterKey(key));
      props.ShiftRemove(SetterKey(key));
    }
  }
}

/** Insertion-ordered maps with string keys: insert keeps a present key's place, shift-remove keeps the others' order. */
module OrderedMap {
  import opened Prelude

  datatype Entry<T> = Entry(key: string, value: T)

  type OMap<T> = seq<Entry<T>>

  function Get<T>(m: OMap<T>, k: string): Option<T> {
    if m == [] then None else if m[0].key == k then Some(m[0].value) else Get(m[1..], k)
  }

  function Put<T>(m: OMap<T>, k: string, v: T): OMap<T> {
    if m == [] then [Entry(k, v)]
    else if m[0].key == k then [Entry(k, v)] + m[1..]
    else [m[0]] + Put(m[1..], k, v)
  }

  function Remove<T>(m: OMap<T>, k: string): OMap<T> {
    if m == [] then [] else if m[0].key == k then Remove(m[1..], k) else [m[0]] + Remove(m[1..], k)
  }

  lemma {:induction false} GetPut<T>(m: OMap<T>, k: string, v: T, j: string)
    ensures Get(Put(m, k, v), j) == if j == k then Some(v) else Get(m, j)
  {
    if m != [] && m[0].key != k { GetPut(m[1..], k, v, j); }
  }

  lemma {:induction false} GetRemove<T>(m: OMap<T>, k: string, j: string)
    ensures Get(Remove(m, k), j) == if j == k then None else Get(m, j)
  {
    if m != [] { GetRemove(m[1..], k, j); }
  }

  lemma {:induction false} PutPut<T>(m: OMap<T>, k: string, v: T, w: T)
    ensures Put(Put(m, k, v), k, w) == Put(m, k, w)
  {
    if m != [] && m[0].key != k { PutPut(m[1..], k, v, w); }
  }

  lemma {:induction false} PutSame<T>(m: OMap<T>, k: string, v: T)
    requires Get(m, k) == Some(v)
    ensures Put(m, k, v) == m
  {
    if m[0].key != k { PutSame(m[1..], k, v); }
  }

  lemma {:induction false} RemoveAbsent<T>(m: OMap<T>, k: string)
    requires Get(m, k) == None
    ensures Remove(m, k) == m
  {
    if m != [] { RemoveAbsent(m[1..], k); }
  }

  // ----- the order of the keys a filter lets through -----

  function Keys<T>(m: OMap<T>, shown: string -> bool): seq<string> {
    if m == [] then [] else if shown(m[0].key) then [m[0].key] + Keys(m[1..], shown) else Keys(m[1..], shown)
  }

  /** A shown key is appended by its first insert; otherwise inserting moves no shown key. */
  lemma {:induction false} KeysPut<T>(m: OMap<T>, k: string, v: T, shown: string -> bool)
    ensures Keys(Put(m, k, v), shown) == if shown(k) && Get(m, k) == None then Keys(m, shown) + [k] else Keys(m, shown)
  {
    if m == [] {
      assert Put(m, k, v)[1..] == [];
    } else if m[0].key == k {
      assert Put(m, k, v)[1..] == m[1..];
    } else {
      KeysPut(m[1..], k, v, shown);
      assert Put(m, k, v)[1..] == Put(m[1..], k, v);
    }
  }

  lemma {:induction false} KeysRemoveHidden<T>(m: OMap<T>, k: string, shown: string -> bool)
    requires !shown(k)
    ensures Keys(Remove(m, k), shown) == Keys(m, shown)
  {
    if m != [] {
      KeysRemoveHidden(m[1..], k, shown);
      if m[0].key != k { assert Remove(m, k)[1..] == Remove(m[1..], k); }
    }
  }

  /** The map an object owns; the methods are those of the ordered-map library. */
  class IndexMap<T> {
    var entries: OMap<T>

    constructor ()
      ensures entries == []
    {
      entries := [];
    }

    method Insert(k: string, v: T)
      modifies this
      ensures entries == Put(old(entries), k, v)
    {
      entries := Put(entries, k, v);
    }

    method ShiftRemove(k: string)
      modifies this
      ensures entries == Remove(old(entries), k)
    {
      entries := Remove(entries, k);
    }
  }
}

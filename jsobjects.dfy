/** A JavaScript plain object used as a field dictionary: its own
    properties in insertion order, a property read (absent reads as
    `undefined`) and a property write (an existing key keeps its place, a
    new key goes last). */
module JsObjects {
  import opened JsValues

  datatype Option<T> = None | Some(value: T)

  /** An own property of an object: its key and its value. The operations
      below are stated for any key and value type; objects use `Entry`. */
  type Entry = (string, Value)

  /** `Object.keys(o)`: the property names in insertion order. */
  function Keys<K, V>(e: seq<(K, V)>): seq<K>
  {
    seq(|e|, i requires 0 <= i < |e| => e[i].0)
  }

  /** `Object.values(o)`: the property values in insertion order. */
  function Values<K, V>(e: seq<(K, V)>): seq<V>
  {
    seq(|e|, i requires 0 <= i < |e| => e[i].1)
  }

  /** An object has each property at most once. */
  ghost predicate DistinctKeys<K, V>(e: seq<(K, V)>) {
    forall i, j :: 0 <= i < j < |e| ==> e[i].0 != e[j].0
  }

  /** The own property `k`, if the object has one. */
  function Lookup<K(==), V>(e: seq<(K, V)>, k: K): Option<V>
  {
    if e == [] then None
    else if e[0].0 == k then Some(e[0].1)
    else Lookup(e[1..], k)
  }

  /** `o[k]`: a missing property reads as `undefined`. */
  function Read(e: seq<Entry>, k: string): Value
  {
    match Lookup(e, k)
    case Some(v) => v
    case None => Undefined
  }

  /** `o[k] = v`. */
  function Assign<K(==), V>(e: seq<(K, V)>, k: K, v: V): seq<(K, V)>
  {
    if e == [] then [(k, v)]
    else if e[0].0 == k then [(k, v)] + e[1..]
    else [e[0]] + Assign(e[1..], k, v)
  }

  /** A property is found exactly when the object has that key. */
  lemma {:induction false} LookupPresent<K, V>(e: seq<(K, V)>, k: K)
    ensures Lookup(e, k).Some? <==> k in Keys(e)
  {
    if e != [] {
      LookupPresent(e[1..], k);
      assert Keys(e) == [e[0].0] + Keys(e[1..]);
    }
  }

  /** Under distinct keys, what is found is the value stored under the key. */
  lemma {:induction false} LookupFinds<K, V>(e: seq<(K, V)>, k: K)
    requires DistinctKeys(e)
    ensures Lookup(e, k).Some? <==> k in Keys(e)
    ensures forall i :: 0 <= i < |e| && e[i].0 == k ==> Lookup(e, k) == Some(e[i].1)
  {
    LookupPresent(e, k);
    if e != [] {
      LookupFinds(e[1..], k);
      forall i | 1 <= i < |e| && e[i].0 == k
        ensures e[1..][i - 1].0 == k
      {
      }
    }
  }

  /** After `o[k] = v` the property `k` reads `v` and every other property
      reads as before. */
  lemma {:induction false} AssignLookup<K, V>(e: seq<(K, V)>, k: K, v: V, j: K)
    ensures Lookup(Assign(e, k, v), j) == if j == k then Some(v) else Lookup(e, j)
  {
    if e != [] && e[0].0 != k {
      AssignLookup(e[1..], k, v, j);
    }
  }

  lemma {:induction false} AssignLength<K, V>(e: seq<(K, V)>, k: K, v: V)
    ensures |Assign(e, k, v)| == if k in Keys(e) then |e| else |e| + 1
  {
    if e != [] {
      assert Keys(e) == [e[0].0] + Keys(e[1..]);
      if e[0].0 != k {
        AssignLength(e[1..], k, v);
      }
    }
  }

  lemma {:induction false} AssignAppends<K, V>(e: seq<(K, V)>, k: K, v: V)
    requires k !in Keys(e)
    ensures |Assign(e, k, v)| == |e| + 1 && Assign(e, k, v)[|e|] == (k, v)
  {
    if e != [] {
      assert Keys(e) == [e[0].0] + Keys(e[1..]);
      AssignAppends(e[1..], k, v);
    }
  }

  lemma {:induction false} AssignAt<K, V>(e: seq<(K, V)>, k: K, v: V)
    requires DistinctKeys(e)
    ensures |Assign(e, k, v)| >= |e|
    ensures forall i :: 0 <= i < |e| ==>
              Assign(e, k, v)[i] == if e[i].0 == k then (k, v) else e[i]
  {
    if e != [] {
      var t := e[1..];
      if e[0].0 != k {
        assert DistinctKeys(t) by {
          forall i, j | 0 <= i < j < |t| ensures t[i].0 != t[j].0 {
            assert t[i] == e[i + 1] && t[j] == e[j + 1];
          }
        }
        AssignAt(t, k, v);
        var a := Assign(e, k, v);
        assert a == [e[0]] + Assign(t, k, v);
        forall i | 1 <= i < |e|
          ensures a[i] == if e[i].0 == k then (k, v) else e[i]
        {
          assert a[i] == Assign(t, k, v)[i - 1] && e[i] == t[i - 1];
        }
      }
    }
  }

  /** After `o[k] = v` the object has key `k` and exactly the keys it had. */
  lemma AssignKeys<K, V>(e: seq<(K, V)>, k: K, v: V, j: K)
    ensures j in Keys(Assign(e, k, v)) <==> j == k || j in Keys(e)
  {
    LookupPresent(Assign(e, k, v), j);
    LookupPresent(e, j);
    AssignLookup(e, k, v, j);
  }

  /** `o[k] = v` in full: a key already present keeps its position and only
      its value changes; a new key is appended; every other entry stays where
      it was. */
  lemma AssignInPlace<K, V>(e: seq<(K, V)>, k: K, v: V)
    requires DistinctKeys(e)
    ensures |Assign(e, k, v)| == if k in Keys(e) then |e| else |e| + 1
    ensures forall i :: 0 <= i < |e| ==>
              Assign(e, k, v)[i] == if e[i].0 == k then (k, v) else e[i]
    ensures k !in Keys(e) ==> Assign(e, k, v)[|e|] == (k, v)
  {
    AssignLength(e, k, v);
    AssignAt(e, k, v);
    if k !in Keys(e) {
      AssignAppends(e, k, v);
    }
  }

  /** Property writes keep an object's keys distinct. */
  lemma AssignKeepsDistinct<K, V>(e: seq<(K, V)>, k: K, v: V)
    requires DistinctKeys(e)
    ensures DistinctKeys(Assign(e, k, v))
  {
    AssignInPlace(e, k, v);
    var a := Assign(e, k, v);
    forall i, j | 0 <= i < j < |a| ensures a[i].0 != a[j].0 {
      if j == |e| {
        assert k !in Keys(e);
        assert a[i] == e[i];
        assert Keys(e)[i] == e[i].0;
      }
    }
  }

  /** A property write leaves every other entry at its position. */
  lemma AssignKeepsOthers<K, V>(e: seq<(K, V)>, k: K, v: V)
    requires DistinctKeys(e)
    ensures DistinctKeys(Assign(e, k, v)) && |Assign(e, k, v)| >= |e|
    ensures forall i :: 0 <= i < |e| && e[i].0 != k ==> Assign(e, k, v)[i] == e[i]
  {
    AssignInPlace(e, k, v);
    AssignKeepsDistinct(e, k, v);
  }

  /** A JavaScript object that callers share by reference. */
  class Dict {
    var entries: seq<Entry>

    ghost predicate Valid()
      reads this
    {
      DistinctKeys(entries)
    }

    constructor (e: seq<Entry>)
      requires DistinctKeys(e)
      ensures Valid() && entries == e
    {
      entries := e;
    }

    /** `this[k]` */
    function Get(k: string): Value
      reads this
    {
      Read(entries, k)
    }

    /** `this[k] = v` */
    method Set(k: string, v: Value)
      requires Valid()
      modifies this
      ensures Valid() && entries == Assign(old(entries), k, v)
    {
      AssignKeepsDistinct(entries, k, v);
      entries := Assign(entries, k, v);
    }
  }
}

/**
 * A PHP array with integer keys: an ordered map whose entries are kept in
 * insertion order. Assigning `$a[$k] = $v` overwrites the value in place when
 * `$k` is already a key and appends a new entry otherwise; `foreach` visits
 * the entries in that order.
 */
module PhpArray {
  import opened Wrappers

  datatype Entry<V> = Entry(key: int, value: V)

  /** The set of keys of `a`. */
  function Keys<V>(a: seq<Entry<V>>): set<int> {
    set i | 0 <= i < |a| :: a[i].key
  }

  /** No key occurs twice: the shape every PHP array has. */
  predicate UniqueKeys<V>(a: seq<Entry<V>>) {
    forall i, j :: 0 <= i < j < |a| ==> a[i].key != a[j].key
  }

  /** The values in `foreach` order. */
  function Values<V>(a: seq<Entry<V>>): (vs: seq<V>)
    ensures |vs| == |a|
    ensures forall i :: 0 <= i < |a| ==> vs[i] == a[i].value
  {
    seq(|a|, i requires 0 <= i < |a| => a[i].value)
  }

  /** `$a[$k]`: the value stored under `k`, or None when `k` is not a key. */
  function Lookup<V>(a: seq<Entry<V>>, k: int): (r: Option<V>)
    ensures r.None? <==> k !in Keys(a)
    ensures r.Some? ==> exists i :: 0 <= i < |a| && a[i] == Entry(k, r.value)
  {
    if a == [] then None
    else if a[0].key == k then Some(a[0].value)
    else Lookup(a[1..], k)
  }

  /** `$a[$k] = $v`. */
  function Put<V>(a: seq<Entry<V>>, k: int, v: V): (r: seq<Entry<V>>)
    ensures Keys(r) == Keys(a) + {k}
    ensures k !in Keys(a) ==> r == a + [Entry(k, v)]
    ensures UniqueKeys(a) ==> UniqueKeys(r)
  {
    if a == [] then
      Cons(Entry(k, v), []);
      [Entry(k, v)]
    else
      var head, tail := a[0], a[1..];
      assert a == [head] + tail;
      Cons(head, tail);
      if head.key == k then
        Cons(Entry(k, v), tail);
        [Entry(k, v)] + tail
      else
        var t := Put(tail, k, v);
        Cons(head, t);
        assert k !in Keys(a) ==> [head] + t == a + [Entry(k, v)];
        [head] + t
  }

  /** Keys and key uniqueness of an array split into its first entry and the rest. */
  lemma Cons<V>(e: Entry<V>, t: seq<Entry<V>>)
    ensures Keys([e] + t) == {e.key} + Keys(t)
    ensures UniqueKeys([e] + t) <==> e.key !in Keys(t) && UniqueKeys(t)
  {
    var a := [e] + t;
    assert a[0] == e;
    forall k | k in Keys(a) ensures k in {e.key} + Keys(t) {
      var i :| 0 <= i < |a| && a[i].key == k;
      if i > 0 { assert t[i - 1].key == k; }
    }
    forall k | k in Keys(t) ensures k in Keys(a) {
      var i :| 0 <= i < |t| && t[i].key == k;
      assert a[i + 1].key == k;
    }
    if UniqueKeys(a) {
      forall i, j | 0 <= i < j < |t| ensures t[i].key != t[j].key {
        assert a[i + 1] == t[i] && a[j + 1] == t[j];
      }
      forall i | 0 <= i < |t| ensures t[i].key != e.key {
        assert a[i + 1] == t[i];
      }
    }
    if e.key !in Keys(t) && UniqueKeys(t) {
      forall i, j | 0 <= i < j < |a| ensures a[i].key != a[j].key {
        assert a[j] == t[j - 1];
        if i > 0 { assert a[i] == t[i - 1]; }
      }
    }
  }

  /** After `$a[$k] = $v`, `$a[$k]` is `$v` and every other key reads as before. */
  lemma {:induction false} LookupPut<V>(a: seq<Entry<V>>, k: int, v: V, j: int)
    ensures Lookup(Put(a, k, v), j) == if j == k then Some(v) else Lookup(a, j)
  {
    if a != [] && a[0].key != k {
      LookupPut(a[1..], k, v, j);
    }
  }

  /** Assigning to a key already present overwrites in place: length and key order are unchanged. */
  lemma {:induction false} PutExistingInPlace<V>(a: seq<Entry<V>>, k: int, v: V)
    requires k in Keys(a)
    ensures |Put(a, k, v)| == |a|
    ensures forall i :: 0 <= i < |a| ==> Put(a, k, v)[i].key == a[i].key
  {
    if a[0].key != k {
      Cons(a[0], a[1..]);
      PutExistingInPlace(a[1..], k, v);
    }
  }

  /** In an array with unique keys, the entry at position `p` is what its key looks up. */
  lemma LookupAt<V>(a: seq<Entry<V>>, p: int)
    requires UniqueKeys(a)
    requires 0 <= p < |a|
    ensures Lookup(a, a[p].key) == Some(a[p].value)
  {
  }
}

/** A stable sort on keys compared from the left, as a chain of comparators compares them. */
module StableSort {

  type Key = seq<real>

  predicate Before(x: Key, y: Key) {
    x != [] && y != [] && (x[0] < y[0] || (x[0] == y[0] && Before(x[1..], y[1..])))
  }

  datatype Entry<T> = Entry(item: T, key: Key)

  function Insert<T(!new)>(e: Entry<T>, es: seq<Entry<T>>): (r: seq<Entry<T>>)
    ensures |r| == |es| + 1
    ensures forall x :: x in r <==> x == e || x in es
  {
    if es == [] || !Before(es[0].key, e.key) then [e] + es
    else
      assert es == [es[0]] + es[1..];
      [es[0]] + Insert(e, es[1..])
  }

  function Sort<T(!new)>(es: seq<Entry<T>>): (r: seq<Entry<T>>)
    ensures |r| == |es|
    ensures forall x :: x in r <==> x in es
  {
    if es == [] then []
    else
      assert es == [es[0]] + es[1..];
      Insert(es[0], Sort(es[1..]))
  }

  lemma {:induction false} BeforeIsOrder(x: Key, y: Key, z: Key)
    ensures !(Before(x, y) && Before(y, x))
    ensures |x| == |y| == |z| && !Before(y, x) && !Before(z, y) ==> !Before(z, x)
  {
    if x != [] && y != [] {
      BeforeIsOrder(x[1..], y[1..], if z != [] then z[1..] else []);
    }
  }

  ghost predicate Uniform<T(!new)>(es: seq<Entry<T>>, width: nat) {
    forall e <- es :: |e.key| == width
  }

  /** No entry's key comes before the key of an entry ahead of it. */
  ghost predicate Ordered<T(!new)>(es: seq<Entry<T>>) {
    es == [] || (Ordered(es[1..]) && forall e <- es[1..] :: !Before(e.key, es[0].key))
  }

  /** The entries with this key, in the order they stand. */
  function WithKey<T(!new)>(es: seq<Entry<T>>, key: Key): seq<Entry<T>> {
    if es == [] then []
    else (if es[0].key == key then [es[0]] else []) + WithKey(es[1..], key)
  }

  lemma {:induction false} InsertOrders<T(!new)>(e: Entry<T>, es: seq<Entry<T>>, width: nat)
    requires Uniform(es, width) && |e.key| == width && Ordered(es)
    ensures Ordered(Insert(e, es))
  {
    var r := Insert(e, es);
    if es == [] || !Before(es[0].key, e.key) {
      assert r[1..] == es;
      forall x <- es
        ensures !Before(x.key, e.key)
      {
        assert x == es[0] || x in es[1..];
        BeforeIsOrder(e.key, es[0].key, x.key);
        BeforeIsOrder(es[0].key, es[0].key, es[0].key);
      }
    } else {
      InsertOrders(e, es[1..], width);
      assert r[1..] == Insert(e, es[1..]);
      BeforeIsOrder(es[0].key, e.key, e.key);
    }
  }

  lemma {:induction false} InsertPermutes<T(!new)>(e: Entry<T>, es: seq<Entry<T>>)
    ensures multiset(Insert(e, es)) == multiset(es) + multiset{e}
  {
    if es != [] && Before(es[0].key, e.key) {
      InsertPermutes(e, es[1..]);
      assert es == [es[0]] + es[1..];
    }
  }

  lemma {:induction false} InsertIsStable<T(!new)>(e: Entry<T>, es: seq<Entry<T>>, key: Key)
    ensures WithKey(Insert(e, es), key) == (if e.key == key then [e] else []) + WithKey(es, key)
  {
    var r := Insert(e, es);
    if es == [] || !Before(es[0].key, e.key) {
      assert r[1..] == es;
    } else {
      BeforeIsOrder(e.key, es[0].key, e.key);
      hide Before;
      InsertIsStable(e, es[1..], key);
      var rest := Insert(e, es[1..]);
      assert r == [es[0]] + rest && r[1..] == rest;
      assert es[0].key != e.key;
      if es[0].key == key {
        assert WithKey(r, key) == [es[0]] + WithKey(rest, key) && WithKey(rest, key) == [] + WithKey(es[1..], key);
      }
      return;
    }
  }

  /** The sort is a permutation into key order that keeps ties in the order they came. */
  lemma {:induction false} SortIsStable<T(!new)>(es: seq<Entry<T>>, width: nat)
    requires Uniform(es, width)
    ensures multiset(Sort(es)) == multiset(es)
    ensures Ordered(Sort(es))
    ensures forall key: Key :: WithKey(Sort(es), key) == WithKey(es, key)
  {
    if es != [] {
      assert es == [es[0]] + es[1..];
      SortIsStable(es[1..], width);
      InsertOrders(es[0], Sort(es[1..]), width);
      InsertPermutes(es[0], Sort(es[1..]));
      forall key: Key
        ensures WithKey(Sort(es), key) == WithKey(es, key)
      {
        InsertIsStable(es[0], Sort(es[1..]), key);
      }
    }
  }

  function Items<T(!new)>(es: seq<Entry<T>>): (items: seq<T>)
    ensures |items| == |es|
    ensures forall i :: 0 <= i < |es| ==> items[i] == es[i].item
  {
    seq(|es|, i requires 0 <= i < |es| => es[i].item)
  }

  /** Sorting keeps the members and puts one first whose key no other comes before. */
  lemma {:induction false} SortedHead<T(!new)>(v: seq<T>, es: seq<Entry<T>>, width: nat) returns (h: nat)
    requires |es| == |v| > 0 && Uniform(es, width)
    requires forall i :: 0 <= i < |v| ==> es[i].item == v[i]
    ensures h < |v| && Items(Sort(es))[0] == v[h]
    ensures forall i :: 0 <= i < |v| ==> !Before(es[i].key, es[h].key)
    ensures forall x :: x in Items(Sort(es)) <==> x in v
  {
    SortIsStable(es, width);
    var sorted := Sort(es);
    assert sorted[0] in es;
    h :| 0 <= h < |es| && es[h] == sorted[0];
    forall i | 0 <= i < |v|
      ensures !Before(es[i].key, es[h].key)
    {
      assert es[i] in sorted;
      assert sorted == [sorted[0]] + sorted[1..];
      BeforeIsOrder(es[i].key, es[i].key, es[i].key);
    }
    forall x
      ensures x in Items(sorted) <==> x in v
    {
      if x in v {
        var i :| 0 <= i < |v| && v[i] == x;
        assert es[i] in sorted;
        var j :| 0 <= j < |sorted| && sorted[j] == es[i];
        assert Items(sorted)[j] == x;
      }
      if x in Items(sorted) {
        var j :| 0 <= j < |sorted| && Items(sorted)[j] == x;
        assert sorted[j] in es;
        var i :| 0 <= i < |es| && es[i] == sorted[j];
        assert v[i] == x;
      }
    }
  }
}

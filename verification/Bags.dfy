/** Maps as multisets of their entries, for books that must balance. */
module Bags {
  /** The entries of a map, each once. */
  ghost function Bag<K, V>(m: map<K, V>): multiset<(K, V)> {
    multiset(m.Items)
  }

  lemma BagRemove<K, V>(m: map<K, V>, k: K)
    requires k in m
    ensures Bag(m) == Bag(m - {k}) + multiset{(k, m[k])}
  {
    var smaller := m - {k};
    forall e: (K, V) ensures e in m.Items <==> e in smaller.Items || e == (k, m[k]) {
      if e in m.Items && e.0 != k {
        assert e.0 in smaller && smaller[e.0] == e.1;
      }
    }
    assert m.Items == smaller.Items + {(k, m[k])};
    assert (k, m[k]) !in smaller.Items;
  }

  lemma BagAdd<K, V>(m: map<K, V>, k: K, v: V)
    requires k !in m
    ensures Bag(m[k := v]) == Bag(m) + multiset{(k, v)}
  {
    BagRemove(m[k := v], k);
    assert m[k := v] - {k} == m;
  }

  /** `order` names every key once. */
  ghost predicate Lists<K(!new)>(order: seq<K>, keys: set<K>) {
    && (forall i, j :: 0 <= i < j < |order| ==> order[i] != order[j])
    && (forall k :: k in order <==> k in keys)
  }

  /** The entries of a map in a given order. */
  ghost function Entries<K, V>(order: seq<K>, m: map<K, V>): seq<(K, V)>
    requires forall k <- order :: k in m
  {
    seq(|order|, i requires 0 <= i < |order| => (order[i], m[order[i]]))
  }

  /** A list without its last key lists the others. */
  lemma ListsBefore<K(!new)>(order: seq<K>, keys: set<K>)
    requires Lists(order, keys) && order != []
    ensures order[|order| - 1] in keys && Lists(order[..|order| - 1], keys - {order[|order| - 1]})
  {
    var k, before := order[|order| - 1], order[..|order| - 1];
    assert k in order;
    assert forall e :: e in order ==> e == k || e in before;
  }

  lemma EntriesOneMore<K(!new), V>(order: seq<K>, m: map<K, V>)
    requires Lists(order, m.Keys) && order != []
    ensures var k, before := order[|order| - 1], order[..|order| - 1];
            && k in m && Lists(before, (m - {k}).Keys)
            && Entries(order, m) == Entries(before, m - {k}) + [(k, m[k])]
  {
    ListsBefore(order, m.Keys);
  }

  lemma {:induction false} EntriesAreAll<K(!new), V>(order: seq<K>, m: map<K, V>)
    requires Lists(order, m.Keys)
    ensures multiset(Entries(order, m)) == Bag(m)
    decreases |order|
  {
    if order == [] {
      assert m == map[];
    } else {
      var k := order[|order| - 1];
      EntriesOneMore(order, m);
      BagRemove(m, k);
      EntriesAreAll(order[..|order| - 1], m - {k});
    }
  }

  lemma TakeOut<T>(less: multiset<T>, x: T, a: multiset<T>, b: multiset<T>)
    requires less + multiset{x} == a + b && x in b
    ensures less == a + (b - multiset{x})
  {
    forall y: T ensures less[y] == (a + (b - multiset{x}))[y] {
      assert (less + multiset{x})[y] == (a + b)[y];
    }
  }

  lemma MoveOver<T>(less: multiset<T>, x: T, done: multiset<T>, extra: multiset<T>)
    ensures (less + multiset{x}) + done + extra == less + (done + multiset{x}) + extra
    ensures done + (extra + (less + multiset{x})) == done + multiset{x} + (extra + less)
  {
  }

  lemma TakeFirst<T>(s: seq<T>)
    requires s != []
    ensures s[0] in multiset(s) && multiset(s[1..]) == multiset(s) - multiset{s[0]}
  {
    assert s == [s[0]] + s[1..];
  }
}

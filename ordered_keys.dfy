/** A JavaScript `Map` remembers the order in which its keys were first set;
    `Map.prototype.values()` enumerates in that order. A store is modelled as
    that key order beside a Dafny `map`. */
module OrderedKeys {
  import opened Seqs

  /** The key order and the map describe the same keys, each once. */
  predicate KeysInOrder<V>(order: seq<string>, m: map<string, V>)
  {
    Distinct(order) && (forall k :: k in order ==> k in m) && (forall k :: k in m ==> k in order)
  }

  /** `Map.set(k, …)`: a new key goes last, an existing key keeps its place. */
  function InsertKey(order: seq<string>, k: string): (r: seq<string>)
    ensures Distinct(order) ==> Distinct(r)
    ensures forall x :: x in r <==> x in order || x == k
    ensures k in order ==> r == order
    ensures k !in order ==> r == order + [k]
  {
    if k in order then order else order + [k]
  }

  /** The elements other than `k`. */
  function Except(k: string): string -> bool
  {
    x => x != k
  }

  /** `Map.delete(k)`: the key leaves the order, the others keep theirs. */
  function RemoveKey(order: seq<string>, k: string): (r: seq<string>)
    ensures Distinct(order) ==> Distinct(r)
    ensures forall x :: x in r <==> x in order && x != k
    ensures IsSubsequence(r, order)
  {
    FilterIsSubsequence(order, Except(k));
    FilterMembers(order, Except(k));
    if Distinct(order) then FilterDistinct(order, Except(k)); Filter(order, Except(k))
    else Filter(order, Except(k))
  }

  /** `Array.from(m.values())`: the stored values in key order. */
  function ValuesInOrder<V>(order: seq<string>, m: map<string, V>): (r: seq<V>)
    requires forall k :: k in order ==> k in m
    ensures |r| == |order|
    ensures forall i :: 0 <= i < |order| ==> r[i] == m[order[i]]
  {
    seq(|order|, i requires 0 <= i < |order| => m[order[i]])
  }

  /** Every stored value is enumerated, and nothing else is. */
  lemma ValuesInOrderMembers<V>(order: seq<string>, m: map<string, V>, v: V)
    requires KeysInOrder(order, m)
    ensures v in ValuesInOrder(order, m) <==> v in m.Values
  {
    var vs := ValuesInOrder(order, m);
    if v in m.Values {
      var k :| k in m && m[k] == v;
      var i :| 0 <= i < |order| && order[i] == k;
      assert vs[i] == v;
    }
  }
}

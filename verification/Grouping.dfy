/** Grouping values by key in the order keys are first seen, as event coalescing and job grouping both do. */
module Grouping {
  import opened Sequences

  function Keys<K(==), V>(pairs: seq<(K, V)>): seq<K> {
    if pairs == [] then []
    else
      var front, key := Keys(pairs[..|pairs| - 1]), pairs[|pairs| - 1].0;
      if key in front then front else front + [key]
  }

  /** The values of one key, in their order. */
  function ValuesOf<K(==), V>(pairs: seq<(K, V)>, key: K): seq<V> {
    if pairs == [] then []
    else
      var front, last := ValuesOf(pairs[..|pairs| - 1], key), pairs[|pairs| - 1];
      if last.0 == key then front + [last.1] else front
  }

  /** A count over a list of values. */
  function Count<V>(f: V -> nat, values: seq<V>): nat {
    if values == [] then 0 else Count(f, values[..|values| - 1]) + f(values[|values| - 1])
  }

  function GroupsCount<K(==), V>(f: V -> nat, pairs: seq<(K, V)>, keys: seq<K>): nat {
    if keys == [] then 0 else GroupsCount(f, pairs, keys[..|keys| - 1]) + Count(f, ValuesOf(pairs, keys[|keys| - 1]))
  }

  function PairsCount<K, V>(f: V -> nat, pairs: seq<(K, V)>): nat {
    if pairs == [] then 0 else PairsCount(f, pairs[..|pairs| - 1]) + f(pairs[|pairs| - 1].1)
  }

  lemma CountSnoc<V>(f: V -> nat, values: seq<V>, last: V)
    ensures Count(f, values + [last]) == Count(f, values) + f(last)
  {
    assert (values + [last])[..|values|] == values;
  }

  lemma {:induction false} CountAppend<V>(f: V -> nat, a: seq<V>, b: seq<V>)
    ensures Count(f, a + b) == Count(f, a) + Count(f, b)
    decreases |b|
  {
    if b == [] {
      assert a + b == a;
    } else {
      var front, last := b[..|b| - 1], b[|b| - 1];
      CountAppend(f, a, front);
      assert a + b == (a + front) + [last] && b == front + [last];
      CountSnoc(f, a + front, last);
      CountSnoc(f, front, last);
    }
  }

  /** Keys come out once each, in first-seen order. */
  lemma {:induction false} KeysAreDistinct<K, V>(pairs: seq<(K, V)>)
    ensures Distinct(Keys(pairs)) && forall i :: 0 <= i < |pairs| ==> pairs[i].0 in Keys(pairs)
    ensures forall k :: k in Keys(pairs) ==> ValuesOf(pairs, k) != []
    decreases |pairs|
  {
    if pairs != [] {
      var front, last := pairs[..|pairs| - 1], pairs[|pairs| - 1];
      KeysAreDistinct(front);
      forall i | 0 <= i < |pairs| ensures pairs[i].0 in Keys(pairs) {
        if i < |pairs| - 1 {
          assert front[i] == pairs[i];
        }
      }
    }
  }

  /** One more pair adds its value to the group of its key and to no other. */
  lemma {:induction false} OneMorePair<K, V>(f: V -> nat, pairs: seq<(K, V)>, pair: (K, V), keys: seq<K>)
    requires Distinct(keys)
    ensures GroupsCount(f, pairs + [pair], keys) == GroupsCount(f, pairs, keys) + (if pair.0 in keys then f(pair.1) else 0)
    decreases |keys|
  {
    assert (pairs + [pair])[..|pairs|] == pairs;
    if keys != [] {
      var front, last := keys[..|keys| - 1], keys[|keys| - 1];
      OneMorePair(f, pairs, pair, front);
      assert keys == front + [last];
      if last == pair.0 {
        CountSnoc(f, ValuesOf(pairs, last), pair.1);
      }
    }
  }

  lemma {:induction false} NoSuchKey<K, V>(pairs: seq<(K, V)>, key: K)
    requires key !in Keys(pairs)
    ensures ValuesOf(pairs, key) == []
    decreases |pairs|
  {
    if pairs != [] {
      NoSuchKey(pairs[..|pairs| - 1], key);
    }
  }

  /** Grouping loses and repeats nothing, whatever is counted. */
  lemma {:induction false} GroupingConserves<K, V>(f: V -> nat, pairs: seq<(K, V)>)
    ensures GroupsCount(f, pairs, Keys(pairs)) == PairsCount(f, pairs)
    decreases |pairs|
  {
    if pairs != [] {
      var front, last := pairs[..|pairs| - 1], pairs[|pairs| - 1];
      GroupingConserves(f, front);
      KeysAreDistinct(front);
      assert pairs == front + [last];
      OneMorePair(f, front, last, Keys(front));
      if last.0 !in Keys(front) {
        var keys := Keys(pairs);
        NoSuchKey(front, last.0);
        assert keys[..|keys| - 1] == Keys(front);
        assert ValuesOf(pairs, last.0) == [last.1];
        CountSnoc(f, [], last.1);
        assert [] + [last.1] == [last.1];
      }
    }
  }
}

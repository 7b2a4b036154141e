/** A JavaScript object with string keys, as an association list in the
    order its keys were first assigned (the order `Object.entries` and
    `for … in` visit keys that are not array indices). */
module JsObject {
  import opened Wrappers

  type Obj<V> = seq<(string, V)>

  function Keys<V>(m: Obj<V>): (r: seq<string>)
    ensures |r| == |m| && forall i :: 0 <= i < |m| ==> r[i] == m[i].0
  {
    if m == [] then [] else [m[0].0] + Keys(m[1..])
  }

  predicate DistinctKeys<V>(m: Obj<V>) {
    forall i, j :: 0 <= i < j < |m| ==> m[i].0 != m[j].0
  }

  /** `m[k]`: the value of key `k`, or `None` for `undefined`. Only own keys
      are modelled: names inherited from `Object.prototype` are not. */
  function Get<V>(m: Obj<V>, k: string): (r: Option<V>)
    ensures r.None? <==> k !in Keys(m)
  {
    if m == [] then None
    else if m[0].0 == k then Some(m[0].1)
    else Get(m[1..], k)
  }

  /** `m[k] = v`: an existing key keeps its place and takes the new value; a
      new key goes last. */
  function Set<V>(m: Obj<V>, k: string, v: V): (r: Obj<V>)
    ensures k in Keys(m) ==> Keys(r) == Keys(m)
    ensures k !in Keys(m) ==> Keys(r) == Keys(m) + [k]
  {
    if m == [] then [(k, v)]
    else if m[0].0 == k then
      assert ([(k, v)] + m[1..])[1..] == m[1..];
      [(k, v)] + m[1..]
    else
      var rest := Set(m[1..], k, v);
      assert ([m[0]] + rest)[1..] == rest;
      [m[0]] + rest
  }

  /** Reading back after `m[k] = v` gives `v` at `k` and the old value
      everywhere else. */
  lemma {:induction false} GetSet<V>(m: Obj<V>, k: string, v: V, key: string)
    ensures Get(Set(m, k, v), key) == if key == k then Some(v) else Get(m, key)
  {
    if m != [] && m[0].0 != k {
      GetSet(m[1..], k, v, key);
      assert Set(m, k, v)[1..] == Set(m[1..], k, v);
    }
  }

  /** A second assignment to the same key overrides the first. */
  lemma {:induction false} SetSet<V>(m: Obj<V>, k: string, v: V, w: V)
    ensures Set(Set(m, k, v), k, w) == Set(m, k, w)
  {
    if m != [] && m[0].0 != k {
      SetSet(m[1..], k, v, w);
      assert Set(m, k, v)[1..] == Set(m[1..], k, v);
    }
  }

  /** Assignment never repeats a key. */
  lemma {:induction false} SetDistinct<V>(m: Obj<V>, k: string, v: V)
    requires DistinctKeys(m)
    ensures DistinctKeys(Set(m, k, v))
  {
    var r := Set(m, k, v);
    forall i, j | 0 <= i < j < |r|
      ensures r[i].0 != r[j].0
    {
      assert Keys(r)[i] == r[i].0 && Keys(r)[j] == r[j].0;
      if k !in Keys(m) && j == |m| {
        assert Keys(r)[j] == k && Keys(r)[i] == Keys(m)[i];
      } else {
        assert Keys(r)[i] == Keys(m)[i] && Keys(r)[j] == Keys(m)[j];
        assert Keys(m)[i] == m[i].0 && Keys(m)[j] == m[j].0;
      }
    }
  }

  /** `(m[k] || 0)` on a count. */
  function Count(m: Obj<nat>, k: string): nat {
    match Get(m, k)
    case Some(n) => n
    case None => 0
  }

  /** `m[k] = (m[k] || 0) + 1`. */
  function Tally(m: Obj<nat>, k: string): Obj<nat> {
    Set<nat>(m, k, Count(m, k) + 1)
  }

  /** Tallying `k` adds one to its count and leaves every other count. */
  lemma CountTally(m: Obj<nat>, k: string, key: string)
    ensures Count(Tally(m, k), key) == Count(m, key) + (if key == k then 1 else 0)
  {
    GetSet<nat>(m, k, Count(m, k) + 1, key);
  }

  /** The sum of `w` over an object's values. */
  function TotalBy<V>(m: Obj<V>, w: V -> nat): nat {
    if m == [] then 0 else w(m[0].1) + TotalBy(m[1..], w)
  }

  /** Assigning `v` to an existing key of a duplicate-free object replaces
      that key's weight in the total; assigning to a new key adds it. */
  lemma {:induction false} TotalBySet<V>(m: Obj<V>, k: string, v: V, w: V -> nat)
    requires DistinctKeys(m)
    ensures TotalBy(Set(m, k, v), w) + (match Get(m, k) { case Some(x) => w(x) case None => 0 }) == TotalBy(m, w) + w(v)
  {
    if m != [] {
      if m[0].0 != k {
        assert Set(m, k, v)[1..] == Set(m[1..], k, v);
        TotalBySet(m[1..], k, v, w);
      } else {
        assert Keys(m)[0] == k;
        assert k !in Keys(m[1..]) by {
          forall i | 0 <= i < |m[1..]|
            ensures Keys(m[1..])[i] != k
          {
            assert m[1..][i] == m[i + 1];
          }
        }
      }
    }
  }

  function CountValue(n: nat): nat {
    n
  }

  /** The sum of an object's counts. */
  function Total(m: Obj<nat>): nat {
    TotalBy(m, CountValue)
  }

  /** Tallying adds one to the total. */
  lemma TotalTally(m: Obj<nat>, k: string)
    requires DistinctKeys(m)
    ensures Total(Tally(m, k)) == Total(m) + 1
  {
    TotalBySet<nat>(m, k, Count(m, k) + 1, CountValue);
    assert Tally(m, k) == Set<nat>(m, k, Count(m, k) + 1);
  }

  /** Two duplicate-free objects with the same keys in the same order and
      the same value at every key are the same object. */
  lemma {:induction false} SameEntries<V>(a: Obj<V>, b: Obj<V>)
    requires DistinctKeys(a) && DistinctKeys(b) && Keys(a) == Keys(b)
    requires forall k :: Get(a, k) == Get(b, k)
    ensures a == b
  {
    if a != [] {
      assert Keys(a)[0] == a[0].0 && Keys(b)[0] == b[0].0;
      assert Get(a, a[0].0) == Some(a[0].1) && Get(b, b[0].0) == Some(b[0].1);
      var a', b' := a[1..], b[1..];
      assert Keys(a') == Keys(a)[1..] && Keys(b') == Keys(b)[1..];
      forall k
        ensures Get(a', k) == Get(b', k)
      {
        if k == a[0].0 {
          assert k !in Keys(a') by {
            forall i | 0 <= i < |a'|
              ensures Keys(a')[i] != k
            {
              assert a'[i] == a[i + 1];
            }
          }
          assert k !in Keys(b');
        } else {
          assert Get(a, k) == Get(a', k) && Get(b, k) == Get(b', k);
        }
      }
      SameEntries(a', b');
      assert a == [a[0]] + a' && b == [b[0]] + b';
    }
  }
}

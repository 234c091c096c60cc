/** `collections.Counter` as the analyzer uses it: a dictionary from keys to counts
    that remembers the order in which keys were first counted, incremented one key
    at a time, and Python's `max` over its items. */
module Counting {

  /** The items of a counter, in insertion order. */
  type Counter<K> = seq<(K, nat)>

  function Keys<K>(c: Counter<K>): (ks: seq<K>)
    ensures |ks| == |c|
    ensures forall i :: 0 <= i < |c| ==> ks[i] == c[i].0
  {
    seq(|c|, i requires 0 <= i < |c| => c[i].0)
  }

  ghost predicate Distinct<K>(ks: seq<K>) {
    forall i, j :: 0 <= i < j < |ks| ==> ks[i] != ks[j]
  }

  /** Each key once, each count positive: what `+= 1` on a `Counter` produces. */
  ghost predicate Valid<K>(c: Counter<K>) {
    Distinct(Keys(c)) && forall i :: 0 <= i < |c| ==> c[i].1 >= 1
  }

  /** `counter[k]`: the count of `k`, and 0 for a key never counted. */
  function Get<K(==)>(c: Counter<K>, k: K): nat {
    if c == [] then 0 else if c[0].0 == k then c[0].1 else Get(c[1..], k)
  }

  /** The sum of all counts. */
  function Total<K>(c: Counter<K>): nat {
    if c == [] then 0 else c[0].1 + Total(c[1..])
  }

  /** `counter[k] += 1`: an existing key keeps its place, a new one goes last. */
  function Inc<K(==)>(c: Counter<K>, k: K): Counter<K> {
    if c == [] then [(k, 1)]
    else if c[0].0 == k then [(k, c[0].1 + 1)] + c[1..]
    else [c[0]] + Inc(c[1..], k)
  }

  /** `+= 1` adds one to the key's count and leaves every other count alone. */
  lemma {:induction false} IncCounts<K>(c: Counter<K>, k: K, j: K)
    ensures Get(Inc(c, k), j) == Get(c, j) + (if j == k then 1 else 0)
  {
    if c != [] && c[0].0 != k {
      IncCounts(c[1..], k, j);
    }
  }

  lemma {:induction false} IncTotal<K>(c: Counter<K>, k: K)
    ensures Total(Inc(c, k)) == Total(c) + 1
  {
    if c != [] && c[0].0 != k {
      IncTotal(c[1..], k);
    }
  }

  /** A key already counted keeps its place; a new key goes last. */
  lemma IncKeys<K>(c: Counter<K>, k: K)
    ensures k in Keys(c) ==> Keys(Inc(c, k)) == Keys(c)
    ensures k !in Keys(c) ==> Keys(Inc(c, k)) == Keys(c) + [k]
  {
    if k in Keys(c) {
      IncKnownKey(c, k);
    } else {
      IncNewKey(c, k);
    }
  }

  lemma {:induction false} IncKnownKey<K>(c: Counter<K>, k: K)
    requires k in Keys(c)
    ensures Keys(Inc(c, k)) == Keys(c)
  {
    assert c == [c[0]] + c[1..];
    KeysCons(c[0], c[1..]);
    if c[0].0 == k {
      KeysCons((k, c[0].1 + 1), c[1..]);
    } else {
      MemberCons(c[0].0, Keys(c[1..]), k);
      IncKnownKey(c[1..], k);
      KeysCons(c[0], Inc(c[1..], k));
    }
  }

  lemma {:induction false} IncNewKey<K>(c: Counter<K>, k: K)
    requires k !in Keys(c)
    ensures Keys(Inc(c, k)) == Keys(c) + [k]
  {
    if c == [] {
      assert Keys(Inc(c, k)) == [k];
    } else {
      assert c == [c[0]] + c[1..];
      KeysCons(c[0], c[1..]);
      MemberCons(c[0].0, Keys(c[1..]), k);
      IncNewKey(c[1..], k);
      KeysCons(c[0], Inc(c[1..], k));
      assert [c[0].0] + (Keys(c[1..]) + [k]) == ([c[0].0] + Keys(c[1..])) + [k];
    }
  }

  lemma KeysCons<K>(x: (K, nat), c: Counter<K>)
    ensures Keys([x] + c) == [x.0] + Keys(c)
  {
  }

  lemma MemberCons<K>(x: K, ks: seq<K>, k: K)
    ensures k in [x] + ks <==> k == x || k in ks
  {
  }

  lemma IncValid<K>(c: Counter<K>, k: K)
    requires Valid(c)
    ensures Valid(Inc(c, k))
  {
    IncKeys(c, k);
    var r := Inc(c, k);
    forall i | 0 <= i < |r| ensures r[i].1 >= 1 {
      IncPositive(c, k, i);
    }
  }

  lemma {:induction false} IncPositive<K>(c: Counter<K>, k: K, i: nat)
    requires forall a :: 0 <= a < |c| ==> c[a].1 >= 1
    requires i < |Inc(c, k)|
    ensures Inc(c, k)[i].1 >= 1
  {
    if c != [] && c[0].0 != k && i > 0 {
      IncPositive(c[1..], k, i - 1);
    }
  }

  /** `Counter(xs)`, built by `+= 1` over `xs` in order. */
  function Tally<K(==)>(xs: seq<K>): Counter<K>
    decreases |xs|
  {
    if xs == [] then [] else Inc(Tally(xs[..|xs| - 1]), xs[|xs| - 1])
  }

  lemma TallyAppend<K>(xs: seq<K>, x: K)
    ensures Tally(xs + [x]) == Inc(Tally(xs), x)
  {
    assert (xs + [x])[..|xs|] == xs;
  }

  /** Every count is the number of occurrences. */
  lemma {:induction false} TallyCounts<K>(xs: seq<K>, k: K)
    ensures Get(Tally(xs), k) == multiset(xs)[k]
    decreases |xs|
  {
    if xs != [] {
      var p := xs[..|xs| - 1];
      TallyCounts(p, k);
      IncCounts(Tally(p), xs[|xs| - 1], k);
      assert xs == p + [xs[|xs| - 1]];
    }
  }

  /** The counts add up to the number of items counted. */
  lemma {:induction false} TallyTotal<K>(xs: seq<K>)
    ensures Total(Tally(xs)) == |xs|
    decreases |xs|
  {
    if xs != [] {
      TallyTotal(xs[..|xs| - 1]);
      IncTotal(Tally(xs[..|xs| - 1]), xs[|xs| - 1]);
    }
  }

  /** Each key once, each count positive. */
  lemma {:induction false} TallyValid<K>(xs: seq<K>)
    ensures Valid(Tally(xs))
    decreases |xs|
  {
    if xs != [] {
      TallyValid(xs[..|xs| - 1]);
      IncValid(Tally(xs[..|xs| - 1]), xs[|xs| - 1]);
    }
  }

  /** The position of the first `k` in `xs`. */
  function FirstIndex<K(==)>(xs: seq<K>, k: K): (i: nat)
    requires k in xs
    ensures i < |xs| && xs[i] == k && k !in xs[..i]
  {
    if xs[0] == k then 0
    else
      var i := FirstIndex(xs[1..], k);
      assert xs[1..][..i] == xs[1..i + 1];
      i + 1
  }

  lemma FirstIndexPrefix<K>(xs: seq<K>, x: K, k: K)
    requires k in xs
    ensures FirstIndex(xs + [x], k) == FirstIndex(xs, k)
  {
    var i := FirstIndex(xs, k);
    assert (xs + [x])[..i] == xs[..i];
    FirstIndexUnique(xs + [x], k, i);
  }

  lemma FirstIndexUnique<K>(xs: seq<K>, k: K, i: nat)
    requires i < |xs| && xs[i] == k && k !in xs[..i]
    ensures FirstIndex(xs, k) == i
  {
  }

  /** The keys are the distinct items. */
  lemma {:induction false} TallyKeySet<K>(xs: seq<K>)
    ensures forall k :: k in Keys(Tally(xs)) <==> k in xs
    decreases |xs|
  {
    if xs != [] {
      var p := xs[..|xs| - 1];
      TallyKeySet(p);
      IncKeys(Tally(p), xs[|xs| - 1]);
      assert xs == p + [xs[|xs| - 1]];
    }
  }

  /** The keys come in the order of their first appearance. */
  lemma {:induction false} TallyKeyOrder<K>(xs: seq<K>)
    ensures forall k :: k in Keys(Tally(xs)) ==> k in xs
    ensures forall i, j :: 0 <= i < j < |Tally(xs)| ==>
              FirstIndex(xs, Keys(Tally(xs))[i]) < FirstIndex(xs, Keys(Tally(xs))[j])
    decreases |xs|
  {
    TallyKeySet(xs);
    if xs != [] {
      var p := xs[..|xs| - 1];
      var x := xs[|xs| - 1];
      TallyKeyOrder(p);
      TallyKeySet(p);
      IncKeys(Tally(p), x);
      assert xs == p + [x];
      var kp := Keys(Tally(p));
      var ks := Keys(Tally(xs));
      forall i, j | 0 <= i < j < |ks|
        ensures FirstIndex(xs, ks[i]) < FirstIndex(xs, ks[j])
      {
        assert ks[i] == kp[i];
        FirstIndexPrefix(p, x, kp[i]);
        if j < |kp| {
          assert ks[j] == kp[j];
          FirstIndexPrefix(p, x, kp[j]);
        } else {
          assert ks[j] == x && x !in p;
          assert x !in xs[..|p|];
        }
      }
    }
  }

  /** The index of the item `max(counter.items(), key=lambda x: x[1])` returns:
      a largest count, the first one among equals. */
  function FirstMaxIndex<K>(c: Counter<K>): (i: nat)
    requires c != []
    ensures i < |c|
    ensures forall j :: 0 <= j < |c| ==> c[j].1 <= c[i].1
    ensures forall j :: 0 <= j < i ==> c[j].1 < c[i].1
    decreases |c|
  {
    if |c| == 1 then 0
    else
      var i := FirstMaxIndex(c[..|c| - 1]);
      if c[|c| - 1].1 > c[i].1 then |c| - 1 else i
  }

  /** No single count exceeds the total. */
  lemma {:induction false} GetAtMostTotal<K>(c: Counter<K>, k: K)
    ensures Get(c, k) <= Total(c)
  {
    if c != [] {
      GetAtMostTotal(c[1..], k);
    }
  }

  /** No row's count exceeds the total. */
  lemma {:induction false} CountAtMostTotal<K>(c: Counter<K>, i: nat)
    requires i < |c|
    ensures c[i].1 <= Total(c)
  {
    if i > 0 {
      CountAtMostTotal(c[1..], i - 1);
    }
  }

  /** In a valid counter, the count stored at a position is the count of its key. */
  lemma {:induction false} GetAt<K>(c: Counter<K>, i: nat)
    requires Valid(c) && i < |c|
    ensures Get(c, c[i].0) == c[i].1
  {
    if i > 0 {
      assert c[0].0 == Keys(c)[0] != Keys(c)[i] == c[i].0;
      assert Valid(c[1..]) by {
        assert forall a :: 0 <= a < |c| - 1 ==> Keys(c[1..])[a] == Keys(c)[a + 1];
      }
      GetAt(c[1..], i - 1);
    }
  }

  /** A key that was never counted has count 0. */
  lemma {:induction false} GetAbsent<K>(c: Counter<K>, k: K)
    requires k !in Keys(c)
    ensures Get(c, k) == 0
  {
    if c != [] {
      assert Keys(c)[0] == c[0].0;
      assert Keys(c[1..]) == Keys(c)[1..];
      GetAbsent(c[1..], k);
    }
  }
}

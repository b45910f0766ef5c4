/** The group-by-key reductions that the dashboard writes as
    `reduce((acc, item) => { acc[key] ??= bucket; acc[key].field += ... }, {})`
    followed by `Object.values(acc)`: the groups in order of first occurrence,
    the members of each group, and sums and maxima over them, with the laws that
    tie the groups back to the whole input. */
module Grouping {
  import opened Wrappers

  /** The distinct keys of `xs`, in order of first occurrence. */
  function Keys<T, K(==)>(xs: seq<T>, key: T -> K): seq<K>
  {
    if xs == [] then []
    else
      var ks := Keys(xs[..|xs| - 1], key);
      var k := key(xs[|xs| - 1]);
      if k in ks then ks else ks + [k]
  }

  /** The elements of `xs` whose key is `k`, in their original order. */
  function Members<T, K(==)>(xs: seq<T>, key: T -> K, k: K): seq<T>
  {
    if xs == [] then []
    else
      var x := xs[|xs| - 1];
      Members(xs[..|xs| - 1], key, k) + (if key(x) == k then [x] else [])
  }

  function SumOf<T>(xs: seq<T>, f: T -> real): real
  {
    if xs == [] then 0.0 else f(xs[0]) + SumOf(xs[1..], f)
  }

  /** `xs.reduce((m, x) => Math.max(m, f(x)), 0)` */
  function MaxOr0<T>(xs: seq<T>, f: T -> real): real
  {
    if xs == [] then 0.0
    else
      var m := MaxOr0(xs[..|xs| - 1], f);
      var v := f(xs[|xs| - 1]);
      if m >= v then m else v
  }

  /** The sum, over the keys `ks`, of the sum of `f` over each key's members. */
  function SumOverKeys<T, K(==)>(ks: seq<K>, xs: seq<T>, key: T -> K, f: T -> real): real
  {
    if ks == [] then 0.0 else SumOf(Members(xs, key, ks[0]), f) + SumOverKeys(ks[1..], xs, key, f)
  }

  predicate Distinct<K(==)>(ks: seq<K>) {
    forall i, j :: 0 <= i < j < |ks| ==> ks[i] != ks[j]
  }

  /** `xs.map(f)` */
  function MapSeq<T, U>(xs: seq<T>, f: T -> U): (ys: seq<U>)
    ensures |ys| == |xs|
  {
    if xs == [] then [] else MapSeq(xs[..|xs| - 1], f) + [f(xs[|xs| - 1])]
  }

  /** Element `j` of the image is the image of element `j`. */
  lemma {:induction false} MapSeqAt<T, U>(xs: seq<T>, f: T -> U, j: nat)
    requires j < |xs|
    ensures MapSeq(xs, f)[j] == f(xs[j])
  {
    if j < |xs| - 1 {
      MapSeqAt(xs[..|xs| - 1], f, j);
    }
  }

  lemma MapSeqSnoc<T, U>(xs: seq<T>, f: T -> U, i: nat)
    requires i < |xs|
    ensures MapSeq(xs[..i + 1], f) == MapSeq(xs[..i], f) + [f(xs[i])]
  {
    assert xs[..i + 1][..i] == xs[..i];
  }

  /** The position `xs.find(p)` stops at: the first element satisfying `p`. */
  function FindIndex<T>(xs: seq<T>, p: T -> bool): (r: Option<nat>)
    ensures r.Some? ==> r.value < |xs| && p(xs[r.value]) && forall j :: 0 <= j < r.value ==> !p(xs[j])
    ensures r.None? ==> forall j :: 0 <= j < |xs| ==> !p(xs[j])
  {
    if xs == [] then None
    else if p(xs[0]) then Some(0)
    else
      match FindIndex(xs[1..], p)
      case None => None
      case Some(i) => Some(i + 1)
  }

  /** `xs.find(p)` */
  function Find<T>(xs: seq<T>, p: T -> bool): Option<T> {
    match FindIndex(xs, p)
    case None => None
    case Some(i) => Some(xs[i])
  }

  // ---------------------------------------------------------------------------
  // One more element

  lemma KeysAppend<T, K>(xs: seq<T>, x: T, key: T -> K)
    ensures Keys(xs + [x], key) == if key(x) in Keys(xs, key) then Keys(xs, key) else Keys(xs, key) + [key(x)]
  {
    assert (xs + [x])[..|xs|] == xs;
  }

  lemma MembersAppend<T, K>(xs: seq<T>, x: T, key: T -> K, k: K)
    ensures Members(xs + [x], key, k) == Members(xs, key, k) + (if key(x) == k then [x] else [])
  {
    assert (xs + [x])[..|xs|] == xs;
  }

  lemma MaxOr0Append<T>(xs: seq<T>, x: T, f: T -> real)
    ensures MaxOr0(xs + [x], f) == if MaxOr0(xs, f) >= f(x) then MaxOr0(xs, f) else f(x)
  {
    assert (xs + [x])[..|xs|] == xs;
  }

  lemma {:induction false} SumAppend<T>(xs: seq<T>, ys: seq<T>, f: T -> real)
    ensures SumOf(xs + ys, f) == SumOf(xs, f) + SumOf(ys, f)
  {
    if xs == [] {
      assert xs + ys == ys;
    } else {
      SumAppend(xs[1..], ys, f);
      assert (xs + ys)[1..] == xs[1..] + ys;
    }
  }

  /** A prefix one longer is the prefix followed by the next element. */
  lemma TakeSnoc<T>(xs: seq<T>, i: nat)
    requires i < |xs|
    ensures xs[..i + 1] == xs[..i] + [xs[i]]
  {
  }

  lemma TakeAll<T>(xs: seq<T>)
    ensures xs[..|xs|] == xs
  {
  }

  lemma SumSnoc<T>(xs: seq<T>, x: T, f: T -> real)
    ensures SumOf(xs + [x], f) == SumOf(xs, f) + f(x)
  {
    SumAppend(xs, [x], f);
    assert [x][1..] == [];
  }

  // ---------------------------------------------------------------------------
  // What the groups are

  /** There are no more groups than elements. */
  lemma {:induction false} KeysLength<T, K>(xs: seq<T>, key: T -> K)
    ensures |Keys(xs, key)| <= |xs|
  {
    if xs != [] {
      KeysLength(xs[..|xs| - 1], key);
    }
  }

  /** Each key is listed once, and exactly the keys that occur are listed. */
  lemma {:induction false} KeysSpec<T, K>(xs: seq<T>, key: T -> K)
    ensures Distinct(Keys(xs, key))
    ensures forall i :: 0 <= i < |xs| ==> key(xs[i]) in Keys(xs, key)
    ensures forall k :: k in Keys(xs, key) ==> exists i :: 0 <= i < |xs| && key(xs[i]) == k
  {
    if xs != [] {
      var ys, x := xs[..|xs| - 1], xs[|xs| - 1];
      assert xs == ys + [x];
      KeysSpec(ys, key);
      KeysAppend(ys, x, key);
      forall i | 0 <= i < |xs|
        ensures key(xs[i]) in Keys(xs, key)
      {
        if i < |ys| {
          assert xs[i] == ys[i];
        }
      }
      forall k | k in Keys(xs, key)
        ensures exists i :: 0 <= i < |xs| && key(xs[i]) == k
      {
        if k in Keys(ys, key) {
          var i :| 0 <= i < |ys| && key(ys[i]) == k;
          assert key(xs[i]) == k;
        } else {
          assert key(xs[|xs| - 1]) == k;
        }
      }
    }
  }

  /** The members of a group are the elements with that key, and a group has
      members exactly when its key is listed. */
  lemma {:induction false} MembersSpec<T, K>(xs: seq<T>, key: T -> K, k: K)
    ensures forall y :: y in Members(xs, key, k) ==> y in xs && key(y) == k
    ensures |Members(xs, key, k)| > 0 <==> k in Keys(xs, key)
    ensures |Members(xs, key, k)| <= |xs|
  {
    if xs != [] {
      var ys, x := xs[..|xs| - 1], xs[|xs| - 1];
      assert xs == ys + [x];
      MembersSpec(ys, key, k);
      KeysAppend(ys, x, key);
      MembersAppend(ys, x, key, k);
    }
  }

  // ---------------------------------------------------------------------------
  // Conservation: the groups partition the input

  lemma {:induction false} SumOverKeysAppendKey<T, K>(ks: seq<K>, k: K, xs: seq<T>, key: T -> K, f: T -> real)
    ensures SumOverKeys(ks + [k], xs, key, f) == SumOverKeys(ks, xs, key, f) + SumOf(Members(xs, key, k), f)
  {
    if ks != [] {
      SumOverKeysAppendKey(ks[1..], k, xs, key, f);
      assert (ks + [k])[1..] == ks[1..] + [k];
    }
  }

  lemma {:induction false} SumOverKeysAppendItem<T, K>(ks: seq<K>, xs: seq<T>, x: T, key: T -> K, f: T -> real)
    requires Distinct(ks)
    ensures SumOverKeys(ks, xs + [x], key, f)
            == SumOverKeys(ks, xs, key, f) + (if key(x) in ks then f(x) else 0.0)
  {
    if ks != [] {
      var k := ks[0];
      assert Distinct(ks[1..]);
      SumOverKeysAppendItem(ks[1..], xs, x, key, f);
      MembersAppend(xs, x, key, k);
      SumAppend(Members(xs, key, k), if key(x) == k then [x] else [], f);
      assert key(x) in ks <==> key(x) == k || key(x) in ks[1..];
      assert key(x) == k ==> key(x) !in ks[1..];
    }
  }

  /** Every element lands in exactly one group: summing any measure group by
      group gives the measure of the whole input. */
  lemma {:induction false} PartitionSum<T, K>(xs: seq<T>, key: T -> K, f: T -> real)
    ensures SumOverKeys(Keys(xs, key), xs, key, f) == SumOf(xs, f)
  {
    if xs != [] {
      var ys, x := xs[..|xs| - 1], xs[|xs| - 1];
      assert xs == ys + [x];
      var ks := Keys(ys, key);
      PartitionSum(ys, key, f);
      KeysSpec(ys, key);
      KeysAppend(ys, x, key);
      SumOverKeysAppendItem(ks, ys, x, key, f);
      SumAppend(ys, [x], f);
      if key(x) !in ks {
        SumOverKeysAppendKey(ks, key(x), xs, key, f);
        MembersSpec(ys, key, key(x));
        MembersAppend(ys, x, key, key(x));
        assert Members(xs, key, key(x)) == [x];
      }
    }
  }

  /** A measure that is 1 on every element sums to the length. */
  lemma {:induction false} SumOfUnit<T>(xs: seq<T>, f: T -> real)
    requires forall x :: f(x) == 1.0
    ensures SumOf(xs, f) == |xs| as real
  {
    if xs != [] {
      SumOfUnit(xs[1..], f);
    }
  }

  /** Taking one element out of a sequence takes its measure out of the sum. */
  lemma {:induction false} SumRemove<T>(b: seq<T>, j: nat, f: T -> real)
    requires j < |b|
    ensures SumOf(b, f) == f(b[j]) + SumOf(b[..j] + b[j + 1..], f)
  {
    if j == 0 {
      assert b[..0] + b[1..] == b[1..];
    } else {
      var tail := b[1..];
      SumRemove(tail, j - 1, f);
      var rest := b[..j] + b[j + 1..];
      assert rest[0] == b[0] && rest[1..] == tail[..j - 1] + tail[j..];
      assert tail[j - 1] == b[j];
    }
  }

  /** An element of the multiset of a sequence sits at some index of it. */
  lemma IndexIn<T>(b: seq<T>, x: T) returns (j: nat)
    requires x in multiset(b)
    ensures j < |b| && b[j] == x
  {
    assert x in b;
    j :| 0 <= j < |b| && b[j] == x;
  }

  /** Matching the first element of `a` with `b[j]` reduces the two sums to the
      sums of what is left. */
  lemma SumPermStep<T>(a: seq<T>, b: seq<T>, j: nat, f: T -> real)
    requires a != [] && j < |b| && b[j] == a[0]
    requires SumOf(a[1..], f) == SumOf(b[..j] + b[j + 1..], f)
    ensures SumOf(a, f) == SumOf(b, f)
  {
    SumRemove(b, j, f);
  }

  /** Matching the first element of `a` with `b[j]` leaves two sequences with
      equal multisets. */
  lemma MultisetTail<T>(a: seq<T>, b: seq<T>, j: nat)
    requires multiset(a) == multiset(b) && a != [] && j < |b| && b[j] == a[0]
    ensures multiset(a[1..]) == multiset(b[..j] + b[j + 1..])
  {
    var x, rest := a[0], b[..j] + b[j + 1..];
    assert a == [x] + a[1..];
    assert b == b[..j] + [x] + b[j + 1..];
    var ma, mb := multiset(a[1..]), multiset(rest);
    assert multiset(a) == multiset{x} + ma;
    assert multiset(b) == multiset(b[..j]) + multiset{x} + multiset(b[j + 1..]);
    assert mb == multiset(b[..j]) + multiset(b[j + 1..]);
    forall y
      ensures ma[y] == mb[y]
    {
      assert multiset(a)[y] == multiset(b)[y];
    }
    assert ma == mb;
  }

  /** Reordering the elements does not change a sum. */
  lemma {:induction false} SumPermutation<T>(a: seq<T>, b: seq<T>, f: T -> real)
    requires multiset(a) == multiset(b)
    ensures SumOf(a, f) == SumOf(b, f)
    decreases |a|
  {
    if a == [] {
      assert |multiset(b)| == 0;
    } else {
      var j := IndexIn(b, a[0]);
      MultisetTail(a, b, j);
      SumPermutation(a[1..], b[..j] + b[j + 1..], f);
      SumPermStep(a, b, j, f);
    }
  }

  /** The running maximum seeded with 0 is 0 or one of the values, and bounds
      them all. */
  lemma {:induction false} MaxOr0Spec<T>(xs: seq<T>, f: T -> real)
    ensures MaxOr0(xs, f) >= 0.0
    ensures forall i :: 0 <= i < |xs| ==> f(xs[i]) <= MaxOr0(xs, f)
    ensures MaxOr0(xs, f) == 0.0 || exists i :: 0 <= i < |xs| && MaxOr0(xs, f) == f(xs[i])
  {
    if xs != [] {
      var ys := xs[..|xs| - 1];
      MaxOr0Spec(ys, f);
      assert forall i :: 0 <= i < |ys| ==> xs[i] == ys[i];
    }
  }
}

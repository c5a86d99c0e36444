/** The list folds and the keyed removal that both route files use: the sum
    behind a product's rating and the admin order total, and the filter behind
    the review delete and the order delete. */
module Lists {

  /** The keys of the elements are pairwise distinct. */
  predicate UniqueKeys<T>(xs: seq<T>, key: T -> string) {
    forall i, j :: 0 <= i < j < |xs| ==> key(xs[i]) != key(xs[j])
  }

  /** The sum of `f` over the list, accumulated left to right from 0. */
  function Sum<T>(xs: seq<T>, f: T -> real): (s: real)
    ensures (forall i :: 0 <= i < |xs| ==> 0.0 <= f(xs[i])) ==> 0.0 <= s
  {
    if xs == [] then 0.0 else Sum(xs[..|xs| - 1], f) + f(xs[|xs| - 1])
  }

  lemma {:induction false} SumAppend<T>(a: seq<T>, b: seq<T>, f: T -> real)
    ensures Sum(a + b, f) == Sum(a, f) + Sum(b, f)
    decreases |b|
  {
    if b == [] {
      assert a + b == a;
    } else {
      var ab, init := a + b, b[..|b| - 1];
      assert ab[..|ab| - 1] == a + init;
      assert ab[|ab| - 1] == b[|b| - 1];
      SumAppend(a, init, f);
    }
  }

  /** The elements whose key differs from `id`, in their original order. */
  function Without<T>(xs: seq<T>, key: T -> string, id: string): (r: seq<T>)
    ensures |r| <= |xs|
    ensures forall k :: 0 <= k < |r| ==> key(r[k]) != id
  {
    if xs == [] then []
    else (if key(xs[0]) != id then [xs[0]] else []) + Without(xs[1..], key, id)
  }

  /** An element survives the removal exactly when it was there and carries
      another key. */
  lemma {:induction false} WithoutMembers<T>(xs: seq<T>, key: T -> string, id: string)
    ensures forall x :: x in Without(xs, key, id) <==> x in xs && key(x) != id
  {
    if xs != [] {
      WithoutMembers(xs[1..], key, id);
      assert xs == [xs[0]] + xs[1..];
    }
  }

  lemma WithoutMember<T>(xs: seq<T>, key: T -> string, id: string, x: T)
    requires x in Without(xs, key, id)
    ensures x in xs
  {
    WithoutMembers(xs, key, id);
  }

  /** Removing a key no element carries keeps the list as it is. */
  lemma {:induction false} WithoutAbsent<T>(xs: seq<T>, key: T -> string, id: string)
    requires forall i :: 0 <= i < |xs| ==> key(xs[i]) != id
    ensures Without(xs, key, id) == xs
  {
    if xs != [] {
      WithoutAbsent(xs[1..], key, id);
    }
  }

  /** With unique keys, removing the key found at index k removes exactly that
      element and keeps the others in their order. */
  lemma {:induction false} WithoutAt<T>(xs: seq<T>, key: T -> string, k: nat)
    requires UniqueKeys(xs, key) && k < |xs|
    ensures Without(xs, key, key(xs[k])) == xs[..k] + xs[k + 1..]
  {
    if k == 0 {
      WithoutAbsent(xs[1..], key, key(xs[0]));
    } else {
      assert UniqueKeys(xs[1..], key);
      WithoutAt(xs[1..], key, k - 1);
      assert xs[1..][k - 1] == xs[k];
      assert xs[..k] == [xs[0]] + xs[1..][..k - 1];
      assert xs[k + 1..] == xs[1..][k..];
    }
  }

  /** The removal works element by element: on a concatenation it is the
      concatenation of the two removals, so it never reorders. */
  lemma {:induction false} WithoutAppend<T>(a: seq<T>, b: seq<T>, key: T -> string, id: string)
    ensures Without(a + b, key, id) == Without(a, key, id) + Without(b, key, id)
    decreases |a|
  {
    if a == [] {
      assert a + b == b;
    } else {
      assert (a + b)[0] == a[0] && (a + b)[1..] == a[1..] + b;
      WithoutAppend(a[1..], b, key, id);
    }
  }

  /** A key that was unique before the removal is unique after it. */
  lemma {:induction false} WithoutKeepsUniqueKeys<T>(xs: seq<T>, key: T -> string, id: string, other: T -> string)
    requires UniqueKeys(xs, other)
    ensures UniqueKeys(Without(xs, key, id), other)
  {
    if xs != [] {
      var tail := Without(xs[1..], key, id);
      assert UniqueKeys(xs[1..], other);
      WithoutKeepsUniqueKeys(xs[1..], key, id, other);
      var r := Without(xs, key, id);
      if key(xs[0]) != id {
        assert r == [xs[0]] + tail;
        forall i, j | 0 <= i < j < |r| ensures other(r[i]) != other(r[j]) {
          if i == 0 {
            assert r[j] == tail[j - 1] && r[j] in tail;
            WithoutMember(xs[1..], key, id, r[j]);
            var m :| 0 <= m < |xs[1..]| && xs[1..][m] == r[j];
            assert r[j] == xs[m + 1];
          } else {
            assert r[i] == tail[i - 1] && r[j] == tail[j - 1];
          }
        }
      } else {
        assert r == tail;
      }
    }
  }
}

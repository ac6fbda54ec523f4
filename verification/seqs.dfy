/** Facts about sequences that several modules need. */
module Seqs {

  /** `w` occurs in `s` at position `i`. */
  predicate PrefixAt<T(==)>(s: seq<T>, i: nat, w: seq<T>)
    decreases |w|
  {
    i + |w| <= |s| && (|w| == 0 || (s[i] == w[0] && PrefixAt(s, i + 1, w[1..])))
  }

  /** `PrefixAt` element by element. */
  lemma {:induction false} PrefixAtIndex<T>(s: seq<T>, i: nat, w: seq<T>)
    ensures PrefixAt(s, i, w) <==> i + |w| <= |s| && forall k :: 0 <= k < |w| ==> s[i + k] == w[k]
    decreases |w|
  {
    if |w| > 0 {
      PrefixAtIndex(s, i + 1, w[1..]);
      if PrefixAt(s, i, w) {
        forall k | 0 <= k < |w|
          ensures s[i + k] == w[k]
        {
          if k > 0 {
            assert s[i + 1 + (k - 1)] == w[1..][k - 1];
          }
        }
      }
      if i + |w| <= |s| && forall k :: 0 <= k < |w| ==> s[i + k] == w[k] {
        forall k | 0 <= k < |w| - 1
          ensures s[i + 1 + k] == w[1..][k]
        {
          assert s[i + (k + 1)] == w[k + 1];
        }
      }
    }
  }

  /** A sequence found at `i` is the slice of `s` it covers. */
  lemma PrefixAtSlice<T>(s: seq<T>, i: nat, w: seq<T>)
    requires PrefixAt(s, i, w)
    ensures i + |w| <= |s| && s[i..i + |w|] == w
  {
    PrefixAtIndex(s, i, w);
  }

  /** The slice of `s` from `i` is found at `i`. */
  lemma SliceIsPrefixAt<T>(s: seq<T>, i: nat, w: seq<T>)
    requires i + |w| <= |s| && s[i..i + |w|] == w
    ensures PrefixAt(s, i, w)
  {
    forall k | 0 <= k < |w|
      ensures s[i + k] == w[k]
    {
      assert s[i..i + |w|][k] == s[i + k];
    }
    PrefixAtIndex(s, i, w);
  }

  /** Concatenation regrouped to the right. */
  lemma Regroup3<T>(a: seq<T>, b: seq<T>, c: seq<T>)
    ensures a + b + c == a + (b + c)
  {
  }

  lemma Regroup5<T>(a: seq<T>, b: seq<T>, c: seq<T>, d: seq<T>, e: seq<T>)
    ensures a + b + c + d + e == a + (b + (c + (d + e)))
  {
  }

  lemma Regroup7<T>(a: seq<T>, b: seq<T>, c: seq<T>, d: seq<T>, e: seq<T>, f: seq<T>, g: seq<T>)
    ensures a + b + c + d + e + f + g == a + (b + (c + (d + (e + f + g))))
  {
  }
}

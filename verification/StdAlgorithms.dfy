/**
 * `std::remove` called with a reference into the very range it compacts, the idiom behind
 * removal in the command registry (sdk/Private/Commands.h) and in the hook list (sdk/Private/Hooks.cpp).
 */
module StdAlgorithms {
  import opened Wrappers

  /** All of `s` except the elements equal to `x`. */
  function Without<T(==)>(s: seq<T>, x: T): seq<T> {
    if s == [] then [] else if s[0] == x then Without(s[1..], x) else [s[0]] + Without(s[1..], x)
  }

  /**
   * What is kept of the elements after the aliased slot. They are compared with `x` until one
   * differs; that one is moved into the slot, and the rest are compared with it instead.
   */
  function KeptAfter<T(==)>(t: seq<T>, x: T): seq<T> {
    if t == [] then [] else if t[0] == x then KeptAfter(t[1..], x) else [t[0]] + Without(t[1..], t[0])
  }

  function RemovedThrough<T(==)>(s: seq<T>, k: nat): seq<T>
    requires k < |s|
  {
    s[..k] + KeptAfter(s[k + 1..], s[k])
  }

  /** `slots` has been compacted up to `i`: what is kept so far, then what is still to look at. */
  predicate IsCompacted<T(==)>(s: seq<T>, k: nat, slots: seq<T>, i: nat, end: nat) {
    |slots| == |s| && k <= end < i <= |s| && slots[..k] == s[..k] && slots[i..] == s[i..] &&
    if end == k then slots[k] == s[k] && KeptAfter(s[i..], s[k]) == KeptAfter(s[k + 1..], s[k])
    else slots[k..end] + Without(s[i..], slots[k]) == KeptAfter(s[k + 1..], s[k])
  }

  lemma Compacts<T>(s: seq<T>, k: nat, slots: seq<T>, i: nat, end: nat)
    requires IsCompacted(s, k, slots, i, end) && i < |s|
    ensures slots[i] == slots[k] ==> IsCompacted(s, k, slots, i + 1, end)
    ensures slots[i] != slots[k] ==> IsCompacted(s, k, slots[end := slots[i]], i + 1, end + 1)
  {
    hide KeptAfter, Without;
    var x := slots[i];
    assert x == s[i] && slots[i + 1..] == slots[i..][1..];
    KeptStep(s, i, slots[k]);
    if x != slots[k] {
      var moved := slots[end := x];
      assert moved[k..end + 1] == slots[k..end] + [x];
      assert moved[..k] == slots[..k] && moved[i + 1..] == slots[i + 1..];
      if end > k {
        assert slots[k..end] + ([x] + Without(s[i + 1..], slots[k]))
               == moved[k..end + 1] + Without(s[i + 1..], slots[k]);
      }
    }
  }

  lemma CompactedEnds<T>(s: seq<T>, k: nat, slots: seq<T>, end: nat)
    requires IsCompacted(s, k, slots, |s|, end)
    ensures end <= |s| && slots[..end] == RemovedThrough(s, k)
  {
    assert s[|s|..] == [];
    assert slots[..end] == slots[..k] + slots[k..end];
  }

  /** The compaction, with the compared value read through slot `k` on every step. */
  method RemoveAliased<T(==)>(a: array<T>, k: nat) returns (end: nat)
    requires k < a.Length && a[k] !in a[..k]
    modifies a
    ensures end <= a.Length && a[..end] == RemovedThrough(old(a[..]), k)
  {
    hide IsCompacted, RemovedThrough;
    end := FindAliased(a, k);
    var i := end + 1;
    ghost var s := a[..];
    assert IsCompacted(s, k, s, k + 1, k) by { NothingCompacted(s, k); }
    while i < a.Length
      invariant k <= end < i <= a.Length && IsCompacted(s, k, a[..], i, end)
    {
      Compacts(s, k, a[..], i, end);
      if a[i] != a[k] {
        a[end] := a[i];
        end := end + 1;
      }
      i := i + 1;
    }
    CompactedEnds(s, k, a[..], end);
  }

  lemma NothingCompacted<T>(s: seq<T>, k: nat)
    requires k < |s|
    ensures IsCompacted(s, k, s, k + 1, k)
  {
  }

  method FindAliased<T(==)>(a: array<T>, k: nat) returns (first: nat)
    requires k < a.Length
    ensures first <= k && a[first] == a[k] && a[k] !in a[..first]
  {
    first := 0;
    while a[first] != a[k]
      invariant first <= k && a[k] !in a[..first]
      decreases k - first
    {
      first := first + 1;
    }
  }

  lemma KeptStep<T>(s: seq<T>, i: nat, x: T)
    requires i < |s|
    ensures KeptAfter(s[i..], x)
            == if s[i] == x then KeptAfter(s[i + 1..], x) else [s[i]] + Without(s[i + 1..], s[i])
    ensures Without(s[i..], x) == if s[i] == x then Without(s[i + 1..], x) else [s[i]] + Without(s[i + 1..], x)
  {
    assert s[i..][1..] == s[i + 1..];
  }

  lemma {:induction false} WithoutLength<T>(s: seq<T>, x: T)
    ensures |Without(s, x)| <= |s|
    ensures x in s ==> |Without(s, x)| < |s|
    ensures x !in s ==> Without(s, x) == s
  {
    if s != [] { WithoutLength(s[1..], x); }
  }

  lemma {:induction false} KeptLength<T>(t: seq<T>, x: T)
    ensures |KeptAfter(t, x)| <= |t|
    ensures t != [] && t[0] == x ==> |KeptAfter(t, x)| < |t|
  {
    if t != [] && t[0] == x {
      KeptLength(t[1..], x);
    } else if t != [] {
      WithoutLength(t[1..], t[0]);
    }
  }

  /** Exactly slot `k` goes when the next element differs from it and does not occur again. */
  lemma RemovesOneIff<T>(s: seq<T>, k: nat)
    requires k < |s|
    ensures RemovedThrough(s, k) == s[..k] + s[k + 1..] <==>
            (k + 1 < |s| ==> s[k + 1] != s[k] && s[k + 1] !in s[k + 2..])
  {
    var t := s[k + 1..];
    if t != [] {
      KeptLength(t, s[k]);
      WithoutLength(t[1..], t[0]);
      assert t[1..] == s[k + 2..];
      if t[0] == s[k] || t[0] in t[1..] {
        assert |RemovedThrough(s, k)| < |s| - 1;
      } else {
        assert t == [t[0]] + t[1..];
      }
    }
  }

  /** With pairwise distinct elements the aliasing is harmless. */
  lemma DistinctRemovesOne<T>(s: seq<T>, k: nat)
    requires k < |s| && Distinct(s)
    ensures s[k] !in s[..k]
    ensures RemovedThrough(s, k) == s[..k] + s[k + 1..]
    ensures Distinct(s[..k] + s[k + 1..])
  {
    RemovesOneIff(s, k);
  }
}

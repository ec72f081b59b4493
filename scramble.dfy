/**
 * _scramble_list: the image list is reordered by a list of indices, each
 * output element being the input element at the matching index.
 */
module Scramble {
  import opened Outcomes

  /** `i` is a valid Python list index for a list of length `n`, negative indices counting from the end. */
  predicate ValidIndex(i: int, n: nat) {
    -(n as int) <= i < n
  }

  /** `s[i]` with Python's reading of a negative index. */
  function PyIndex<T>(s: seq<T>, i: int): T
    requires ValidIndex(i, |s|)
  {
    if i >= 0 then s[i] else s[|s| + i]
  }

  /** The elements of `s` at the indices of `p`, in the order of `p`. */
  function Gather<T>(s: seq<T>, p: seq<int>): (r: seq<T>)
    requires forall k :: 0 <= k < |p| ==> ValidIndex(p[k], |s|)
    ensures |r| == |p|
    ensures forall k :: 0 <= k < |p| ==> r[k] == PyIndex(s, p[k])
  {
    if p == [] then [] else [PyIndex(s, p[0])] + Gather(s, p[1..])
  }

  /** The loop of _scramble_list; an index outside the list raises. */
  method ScrambleList<T>(toSc: seq<T>, perm: seq<int>) returns (r: Result<seq<T>>)
    ensures r.Ok? <==> forall k :: 0 <= k < |perm| ==> ValidIndex(perm[k], |toSc|)
    ensures r.Ok? ==> r.value == Gather(toSc, perm)
    ensures r.Err? ==> r.error == IndexOutOfRange
  {
    var out: seq<T> := [];
    var k := 0;
    while k < |perm|
      invariant 0 <= k <= |perm|
      invariant forall m :: 0 <= m < k ==> ValidIndex(perm[m], |toSc|)
      invariant out == Gather(toSc, perm[..k])
    {
      var i := perm[k];
      if !ValidIndex(i, |toSc|) {
        return Err(IndexOutOfRange);
      }
      GatherSnoc(toSc, perm[..k], i);
      assert perm[..k + 1] == perm[..k] + [i];
      out := out + [PyIndex(toSc, i)];
      k := k + 1;
    }
    assert perm[..k] == perm;
    return Ok(out);
  }

  lemma {:induction false} GatherSnoc<T>(s: seq<T>, p: seq<int>, i: int)
    requires forall k :: 0 <= k < |p| ==> ValidIndex(p[k], |s|)
    requires ValidIndex(i, |s|)
    ensures Gather(s, p + [i]) == Gather(s, p) + [PyIndex(s, i)]
  {
    var q := p + [i];
    assert forall k :: 0 <= k < |q| ==> ValidIndex(q[k], |s|);
  }

  /** `p` lists every index 0 .. n-1 exactly once. */
  predicate IsIndexPermutation(p: seq<int>, n: nat) {
    && |p| == n
    && (forall k :: 0 <= k < |p| ==> 0 <= p[k] < n)
    && (forall a, b :: 0 <= a < b < |p| ==> p[a] != p[b])
  }

  /** Indices above `j` shift down by one once element `j` is removed. */
  function Shift(x: int, j: int): int {
    if x > j then x - 1 else x
  }

  /** The indices of `p`, renumbered for the list without element `j`. */
  function ShiftAll(p: seq<int>, j: int): (r: seq<int>)
    ensures |r| == |p|
    ensures forall k :: 0 <= k < |p| ==> r[k] == Shift(p[k], j)
  {
    if p == [] then [] else [Shift(p[0], j)] + ShiftAll(p[1..], j)
  }

  /** Gathering the renumbered indices from the shortened list picks the same elements. */
  lemma GatherWithout<T>(s: seq<T>, j: nat, p: seq<int>)
    requires j < |s|
    requires forall k :: 0 <= k < |p| ==> 0 <= p[k] < |s| && p[k] != j
    ensures forall k :: 0 <= k < |p| ==> ValidIndex(ShiftAll(p, j)[k], |s| - 1)
    ensures Gather(s[..j] + s[j + 1..], ShiftAll(p, j)) == Gather(s, p)
  {
    var s' := s[..j] + s[j + 1..];
    var q := ShiftAll(p, j);
    forall k | 0 <= k < |p|
      ensures 0 <= q[k] < |s'| && s'[q[k]] == s[p[k]]
    {
      if p[k] < j {
        assert q[k] == p[k] && s'[q[k]] == s[..j][p[k]];
      } else {
        assert q[k] == p[k] - 1 && s'[q[k]] == s[j + 1..][p[k] - j - 1];
      }
    }
    var a, b := Gather(s', q), Gather(s, p);
    forall k | 0 <= k < |p|
      ensures a[k] == b[k]
    {
      assert a[k] == PyIndex(s', q[k]) && b[k] == PyIndex(s, p[k]);
    }
  }

  /** Renumbering the rest of a permutation for the list without its first pick keeps it a permutation. */
  lemma ShiftPermutation(p: seq<int>, n: nat)
    requires n > 0 && IsIndexPermutation(p, n)
    ensures IsIndexPermutation(ShiftAll(p[1..], p[0]), n - 1)
    ensures forall k :: 0 <= k < |p| - 1 ==> p[1..][k] != p[0]
  {
    var j := p[0];
    var q := ShiftAll(p[1..], j);
    forall k | 0 <= k < |q|
      ensures 0 <= q[k] < n - 1 && p[1..][k] != j
    {
      assert p[k + 1] != p[0];
    }
    forall a, b | 0 <= a < b < |q|
      ensures q[a] != q[b]
    {
      assert p[a + 1] != p[b + 1];
      assert p[a + 1] != j && p[b + 1] != j;
    }
  }

  /** Taking element `j` out of a list splits its multiset. */
  lemma MultisetWithout<T>(s: seq<T>, j: nat)
    requires j < |s|
    ensures multiset(s) == multiset{s[j]} + multiset(s[..j] + s[j + 1..])
  {
    assert s == s[..j] + [s[j]] + s[j + 1..];
  }

  /**
   * Scrambling by a permutation of the indices reorders the list: the
   * result holds the same elements, each as often as in the input.
   */
  lemma {:induction false} GatherPermutation<T>(s: seq<T>, p: seq<int>)
    requires IsIndexPermutation(p, |s|)
    ensures multiset(Gather(s, p)) == multiset(s)
    decreases |s|
  {
    if |s| > 0 {
      var j := p[0];
      var s' := s[..j] + s[j + 1..];
      ShiftPermutation(p, |s|);
      GatherWithout(s, j, p[1..]);
      GatherPermutation(s', ShiftAll(p[1..], j));
      MultisetWithout(s, j);
      assert Gather(s, p) == [s[j]] + Gather(s, p[1..]);
    }
  }

  /** The reordering applied to the image list, [1, 3, 2, 4, 0], picks the images in that order. */
  lemma ImageListOrder<T>(imgs: seq<T>)
    requires |imgs| == 5
    ensures Gather(imgs, [1, 3, 2, 4, 0]) == [imgs[1], imgs[3], imgs[2], imgs[4], imgs[0]]
  {
    var p := [1, 3, 2, 4, 0];
    var g := Gather(imgs, p);
    var e := [imgs[1], imgs[3], imgs[2], imgs[4], imgs[0]];
    forall k | 0 <= k < 5
      ensures g[k] == e[k]
    {
      assert g[k] == PyIndex(imgs, p[k]);
    }
    assert g == e;
  }

  /** The same reordering loses and duplicates no image. */
  lemma ImageListReordered<T>(imgs: seq<T>)
    requires |imgs| == 5
    ensures multiset(Gather(imgs, [1, 3, 2, 4, 0])) == multiset(imgs)
  {
    var p := [1, 3, 2, 4, 0];
    assert IsIndexPermutation(p, 5) by {
      forall a, b | 0 <= a < b < 5
        ensures p[a] != p[b]
      {
      }
    }
    GatherPermutation(imgs, p);
  }
}

/** Buffers filled piece by piece: a generator writes consecutive runs of
    slots, and these lemmas join the runs into the buffer's final contents. */
module Splices {

  /** after is before with slots [lo, hi) replaced by seg. */
  ghost predicate Spliced<T>(before: seq<T>, after: seq<T>, lo: nat, hi: nat, seg: seq<T>)
  {
    && lo <= hi <= |before| == |after|
    && after[..lo] == before[..lo]
    && after[lo..hi] == seg
    && after[hi..] == before[hi..]
  }

  /** Two adjacent splices make one. */
  lemma SpliceTwo<T>(s0: seq<T>, s1: seq<T>, s2: seq<T>, lo: nat, mid: nat, hi: nat,
                     a: seq<T>, b: seq<T>)
    requires Spliced(s0, s1, lo, mid, a) && Spliced(s1, s2, mid, hi, b)
    ensures Spliced(s0, s2, lo, hi, a + b)
  {
    assert s2[..lo] == s1[..mid][..lo];
    assert s2[lo..mid] == s2[..mid][lo..];
    assert s1[lo..mid] == s1[..mid][lo..];
    assert s2[lo..hi] == s2[lo..mid] + s2[mid..hi];
    assert s2[hi..] == s1[mid..][hi - mid..];
  }

  /** Four consecutive splices, starting at slot 0 and ending at the last
      slot, rewrite the whole buffer. */
  lemma SpliceFour<T>(s0: seq<T>, s1: seq<T>, s2: seq<T>, s3: seq<T>, s4: seq<T>,
                      i1: nat, i2: nat, i3: nat, i4: nat, a: seq<T>, b: seq<T>, c: seq<T>, d: seq<T>)
    requires Spliced(s0, s1, 0, i1, a)
    requires Spliced(s1, s2, i1, i2, b)
    requires Spliced(s2, s3, i2, i3, c)
    requires Spliced(s3, s4, i3, i4, d)
    requires i4 == |s4|
    ensures s4 == a + b + c + d
  {
    SpliceTwo(s0, s1, s2, 0, i1, i2, a, b);
    SpliceTwo(s0, s2, s3, 0, i2, i3, a + b, c);
    SpliceTwo(s0, s3, s4, 0, i3, i4, a + b + c, d);
    assert s4 == s4[0..i4];
  }

  /** A splice that starts at the end of a known prefix extends that prefix. */
  lemma SpliceExtends<T>(before: seq<T>, after: seq<T>, lo: nat, hi: nat, seg: seq<T>)
    requires Spliced(before, after, lo, hi, seg)
    ensures after[..hi] == before[..lo] + seg
  {
    assert after[..hi] == after[..lo] + after[lo..hi];
  }

  /** The pieces one after another. */
  function Concat<T>(pieces: seq<seq<T>>): (r: seq<T>)
    ensures pieces == [] ==> r == []
  {
    if pieces == [] then [] else Concat(pieces[..|pieces| - 1]) + pieces[|pieces| - 1]
  }

  lemma ConcatStep<T>(pieces: seq<seq<T>>, j: nat)
    requires j < |pieces|
    ensures Concat(pieces[..j + 1]) == Concat(pieces[..j]) + pieces[j]
  {
    assert pieces[..j + 1][..j] == pieces[..j];
  }

  /** Writing piece j right after the first j pieces extends the prefix by it. */
  lemma PieceAppended<T>(before: seq<T>, after: seq<T>, at: nat, pieces: seq<seq<T>>, j: nat)
    requires j < |pieces| && at + |pieces[j]| <= |before|
    requires before[..at] == Concat(pieces[..j])
    requires Spliced(before, after, at, at + |pieces[j]|, pieces[j])
    ensures after[..at + |pieces[j]|] == Concat(pieces[..j + 1])
  {
    SpliceExtends(before, after, at, at + |pieces[j]|, pieces[j]);
    ConcatStep(pieces, j);
  }

  lemma {:induction false} ConcatLength<T>(pieces: seq<seq<T>>, len: nat)
    requires forall k :: 0 <= k < |pieces| ==> |pieces[k]| == len
    ensures |Concat(pieces)| == len * |pieces|
  {
    if pieces != [] {
      var n := |pieces| - 1;
      ConcatLength(pieces[..n], len);
      assert len * |pieces| == len * n + len;
    }
  }

  /** When every piece has length len, slot r of piece i is slot len * i + r of the whole. */
  lemma {:induction false} ConcatSlot<T>(pieces: seq<seq<T>>, len: nat, i: nat, r: nat)
    requires forall k :: 0 <= k < |pieces| ==> |pieces[k]| == len
    requires i < |pieces| && r < len
    ensures |Concat(pieces)| == len * |pieces|
    ensures len * i + r < |Concat(pieces)| && Concat(pieces)[len * i + r] == pieces[i][r]
  {
    ConcatLength(pieces, len);
    var n := |pieces| - 1;
    var init := pieces[..n];
    ConcatLength(init, len);
    if i < n {
      ConcatSlot(init, len, i, r);
      MulBelow(len, i, n);
    } else {
      assert len * i == |Concat(init)|;
    }
  }

  lemma MulBelow(len: nat, i: nat, n: nat)
    requires i < n
    ensures len * i + len <= len * n
  {
    var d := n - i - 1;
    assert len * n == len * i + len + len * d;
  }

  /** A triangle fan around center over a ring of n edge slots, closed by
      repeating the first edge slot. */
  function Fan<T>(center: T, edge: nat -> T, n: nat): (r: seq<T>)
    ensures |r| == n + 2
  {
    [center] + seq(n, i requires 0 <= i => edge(i)) + [edge(0)]
  }

  lemma FanSlots<T>(center: T, edge: nat -> T, n: nat)
    ensures Fan(center, edge, n)[0] == center
    ensures forall i :: 0 <= i < n ==> Fan(center, edge, n)[i + 1] == edge(i)
    ensures Fan(center, edge, n)[n + 1] == edge(0)
  {
  }

  /** A buffer that equals before outside [lo, hi) and holds seg inside it. */
  lemma SplicedBySlots<T>(before: seq<T>, after: seq<T>, lo: nat, hi: nat, seg: seq<T>)
    requires lo <= hi <= |before| == |after| && |seg| == hi - lo
    requires forall k :: 0 <= k < |after| && !(lo <= k < hi) ==> after[k] == before[k]
    requires forall i :: 0 <= i < |seg| ==> after[lo + i] == seg[i]
    ensures Spliced(before, after, lo, hi, seg)
  {
    assert after[..lo] == before[..lo];
    assert after[hi..] == before[hi..];
    assert after[lo..hi] == seg;
  }

  /** A run of count slots starting at offset, as a draw call passes it. */
  datatype Range = Range(offset: nat, count: nat)

  predicate Within(r: Range, length: nat)
  {
    r.offset + r.count <= length
  }

  /** Every entry of an index buffer names a vertex of a buffer of n vertices. */
  predicate IndicesBelow(indices: seq<int>, n: int)
  {
    forall k :: 0 <= k < |indices| ==> 0 <= indices[k] < n
  }

  lemma IndicesBelowJoin(a: seq<int>, b: seq<int>, n: int)
    requires IndicesBelow(a, n) && IndicesBelow(b, n)
    ensures IndicesBelow(a + b, n)
  {
  }

  lemma MembersBelow(s: seq<int>, n: int)
    requires forall x <- s :: 0 <= x < n
    ensures IndicesBelow(s, n)
  {
    forall k | 0 <= k < |s|
      ensures 0 <= s[k] < n
    {
      assert s[k] in s;
    }
  }
}

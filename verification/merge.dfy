/** Sorting and merging excluded ranges in place. */
module Merge {
  import opened Words
  import opened Cidr

  ghost predicate Covered(rs: seq<Range>, a: int) {
    exists r :: r in rs && InRange(r, a)
  }

  ghost predicate ValidRanges(rs: seq<Range>) {
    forall r :: r in rs ==> r.start <= r.end
  }

  ghost predicate SortedByStart(rs: seq<Range>) {
    forall i, j :: 0 <= i < j < |rs| ==> rs[i].start <= rs[j].start
  }

  /** No range up to position i ends at the last address. */
  ghost predicate BelowTop(rs: seq<Range>, i: int)
    requires i < |rs|
  {
    forall k :: 0 <= k <= i ==> rs[k].end < MAX_32
  }

  /** Up to the first range that ends at the last address, at least one address separates neighbours. */
  ghost predicate Separated(rs: seq<Range>) {
    forall i :: 0 <= i < |rs| - 1 && BelowTop(rs, i) ==> rs[i].end + 1 < rs[i + 1].start
  }

  /** What mergeRanges leaves. */
  ghost predicate Merged(rs: seq<Range>) {
    ValidRanges(rs) && SortedByStart(rs) && Separated(rs)
  }

  lemma CoveredAppend(rs: seq<Range>, r: Range, a: int)
    ensures Covered(rs + [r], a) <==> Covered(rs, a) || InRange(r, a)
  {
    if Covered(rs, a) {
      var x :| x in rs && InRange(x, a);
      assert x in rs + [r];
    }
    if InRange(r, a) {
      assert r in rs + [r];
    }
  }

  lemma SameCovered(rs: seq<Range>, qs: seq<Range>, a: int)
    requires multiset(rs) == multiset(qs)
    ensures Covered(rs, a) <==> Covered(qs, a)
  {
    if Covered(rs, a) {
      var x :| x in rs && InRange(x, a);
      assert x in multiset(qs);
    }
    if Covered(qs, a) {
      var x :| x in qs && InRange(x, a);
      assert x in multiset(rs);
    }
  }

  /** sort.Slice by start; only this contract is used, so ties may end up in any order. */
  method SortByStart(rs: array<Range>)
    modifies rs
    ensures SortedByStart(rs[..])
    ensures multiset(rs[..]) == multiset(old(rs[..]))
  {
    var n := 0;
    while n < rs.Length
      invariant 0 <= n <= rs.Length
      invariant SortedByStart(rs[..n])
      invariant multiset(rs[..]) == multiset(old(rs[..]))
    {
      SinkLast(rs, n);
      n := n + 1;
    }
    assert rs[..n] == rs[..];
  }

  method SinkLast(rs: array<Range>, n: nat)
    requires n < rs.Length && SortedByStart(rs[..n])
    modifies rs
    ensures SortedByStart(rs[..n + 1])
    ensures multiset(rs[..]) == multiset(old(rs[..]))
  {
    hide SortedByStart, SortedExcept;
    var j := n;
    SinkStart(rs[..], n);
    while j > 0 && rs[j - 1].start > rs[j].start
      invariant 0 <= j <= n
      invariant SortedExcept(rs[..], n, j)
      invariant multiset(rs[..]) == multiset(old(rs[..]))
    {
      ghost var was := rs[..];
      SwapKeeps(was, n, j);
      rs[j - 1], rs[j] := rs[j], rs[j - 1];
      assert rs[..] == was[j - 1 := was[j]][j := was[j - 1]];
      j := j - 1;
    }
    SinkEnd(rs[..], n, j);
    assert rs[..][..n + 1] == rs[..n + 1];
  }

  lemma SinkStart(rs: seq<Range>, n: nat)
    requires n < |rs| && SortedByStart(rs[..n])
    ensures SortedExcept(rs, n, n)
  {
    forall i, k | 0 <= i < k < n ensures rs[i].start <= rs[k].start {
      assert rs[..n][i] == rs[i] && rs[..n][k] == rs[k];
    }
  }

  lemma SinkEnd(rs: seq<Range>, n: nat, j: nat)
    requires j <= n < |rs| && SortedExcept(rs, n, j)
    requires j == 0 || rs[j - 1].start <= rs[j].start
    ensures SortedByStart(rs[..n + 1])
  {
  }

  /** The first n + 1 ranges are sorted, but the one at j may still be too far right. */
  ghost predicate SortedExcept(rs: seq<Range>, n: nat, j: nat)
    requires n < |rs|
  {
    forall i, k :: 0 <= i < k <= n && k != j ==> rs[i].start <= rs[k].start
  }

  lemma SwapKeeps(rs: seq<Range>, n: nat, j: nat)
    requires 0 < j <= n < |rs| && SortedExcept(rs, n, j)
    requires rs[j - 1].start > rs[j].start
    ensures SortedExcept(rs[j - 1 := rs[j]][j := rs[j - 1]], n, j - 1)
  {
  }

  /** Merging one more sorted range into a merged list, in the uint32 arithmetic of the source. */
  function MergeOne(merged: seq<Range>, r: Range): seq<Range>
    requires merged != []
  {
    var last := merged[|merged| - 1];
    if r.start <= Wrap32(last.end + 1) && last.end != MAX_32 then
      if r.end > last.end then merged[|merged| - 1 := last.(end := r.end)] else merged
    else
      merged + [r]
  }

  /** The wrap of last.end + 1 never decides: merging keeps the normal form. */
  lemma MergeOneKeeps(merged: seq<Range>, r: Range)
    requires merged != [] && Merged(merged)
    requires r.start <= r.end && merged[|merged| - 1].start <= r.start
    ensures Merged(MergeOne(merged, r))
    ensures MergeOne(merged, r)[|MergeOne(merged, r)| - 1].start <= r.start
  {
    hide Merged;
    var last := merged[|merged| - 1];
    if r.start <= Wrap32(last.end + 1) && last.end != MAX_32 {
      if r.end > last.end {
        GrowLastKeeps(merged, r.end);
      }
    } else {
      AppendKeeps(merged, r);
    }
  }

  lemma GrowLastKeeps(merged: seq<Range>, end: u32)
    requires merged != [] && Merged(merged) && end > merged[|merged| - 1].end
    ensures Merged(merged[|merged| - 1 := merged[|merged| - 1].(end := end)])
  {
    var n := |merged| - 1;
    var out := merged[n := merged[n].(end := end)];
    forall i | 0 <= i < n && BelowTop(out, i) ensures out[i].end + 1 < out[i + 1].start {
      assert forall k :: 0 <= k <= i ==> out[k] == merged[k];
      assert BelowTop(merged, i);
    }
  }

  lemma AppendKeeps(merged: seq<Range>, r: Range)
    requires merged != [] && Merged(merged) && r.start <= r.end
    requires merged[|merged| - 1].start <= r.start
    requires merged[|merged| - 1].end == MAX_32 || merged[|merged| - 1].end + 1 < r.start
    ensures Merged(merged + [r])
  {
    AppendSeparated(merged, r);
    var out := merged + [r];
    assert ValidRanges(out) && SortedByStart(out) by {
      hide Separated;
      assert out[|merged|] == r;
    }
  }

  lemma AppendSeparated(merged: seq<Range>, r: Range)
    requires merged != [] && Separated(merged)
    requires merged[|merged| - 1].end == MAX_32 || merged[|merged| - 1].end + 1 < r.start
    ensures Separated(merged + [r])
  {
    var out := merged + [r];
    forall i | 0 <= i < |merged| && BelowTop(out, i) ensures out[i].end + 1 < out[i + 1].start {
      assert out[i].end < MAX_32;
      if i < |merged| - 1 {
        assert forall k :: 0 <= k <= i ==> out[k] == merged[k];
        assert BelowTop(merged, i);
      }
    }
  }

  lemma MergeOneCovers(merged: seq<Range>, r: Range, a: int)
    requires merged != [] && ValidRanges(merged)
    requires r.start <= r.end && merged[|merged| - 1].start <= r.start
    ensures Covered(MergeOne(merged, r), a) <==> Covered(merged, a) || InRange(r, a)
  {
    var n := |merged| - 1;
    var last := merged[n];
    assert merged == merged[..n] + [last];
    CoveredAppend(merged[..n], last, a);
    if r.start <= Wrap32(last.end + 1) && last.end != MAX_32 {
      var grown := if r.end > last.end then last.(end := r.end) else last;
      assert MergeOne(merged, r) == merged[..n] + [grown];
      CoveredAppend(merged[..n], grown, a);
    } else {
      CoveredAppend(merged, r, a);
    }
  }

  /** The two lists cover the same addresses. */
  ghost predicate SameUnion(rs: seq<Range>, qs: seq<Range>) {
    forall a :: Covered(rs, a) <==> Covered(qs, a)
  }

  /** merged is the result for the first i ranges of a sorted list. */
  ghost predicate MergedPrefix(merged: seq<Range>, sorted: seq<Range>, i: nat)
    requires 0 < i <= |sorted|
  {
    && 0 < |merged| <= i && Merged(merged)
    && merged[|merged| - 1].start <= sorted[i - 1].start
    && SameUnion(merged, sorted[..i])
  }

  lemma MergeStep(merged: seq<Range>, sorted: seq<Range>, i: nat)
    requires ValidRanges(sorted) && SortedByStart(sorted) && 0 < i < |sorted|
    requires MergedPrefix(merged, sorted, i)
    ensures merged != [] && MergedPrefix(MergeOne(merged, sorted[i]), sorted, i + 1)
  {
    var r := sorted[i];
    assert r in sorted;
    MergeOneKeeps(merged, r);
    assert sorted[..i + 1] == sorted[..i] + [r];
    forall a ensures Covered(MergeOne(merged, r), a) <==> Covered(sorted[..i + 1], a) {
      MergeOneCovers(merged, r, a);
      CoveredAppend(sorted[..i], r, a);
    }
  }

  lemma MergeStart(sorted: seq<Range>)
    requires sorted != [] && ValidRanges(sorted)
    ensures MergedPrefix([sorted[0]], sorted, 1)
  {
    assert sorted[..1] == [sorted[0]];
  }

  lemma MergeEnd(merged: seq<Range>, sorted: seq<Range>, rs: seq<Range>)
    requires sorted != [] && MergedPrefix(merged, sorted, |sorted|)
    requires multiset(sorted) == multiset(rs)
    ensures Merged(merged) && |merged| <= |sorted| && SameUnion(merged, rs)
  {
    assert sorted[..|sorted|] == sorted;
    forall a ensures Covered(sorted, a) <==> Covered(rs, a) {
      SameCovered(sorted, rs, a);
    }
  }

  /** The loop of mergeRanges, which keeps extending or following the last merged range. */
  method MergeSorted(sorted: seq<Range>) returns (merged: seq<Range>)
    requires sorted != [] && ValidRanges(sorted) && SortedByStart(sorted)
    ensures MergedPrefix(merged, sorted, |sorted|)
  {
    hide MergedPrefix, ValidRanges, SortedByStart;
    merged := [sorted[0]];
    MergeStart(sorted);
    var i := 1;
    while i < |sorted|
      invariant 1 <= i <= |sorted|
      invariant merged != [] && MergedPrefix(merged, sorted, i)
    {
      var r := sorted[i];
      MergeStep(merged, sorted, i);
      var last := merged[|merged| - 1];
      if r.start <= Wrap32(last.end + 1) && last.end != MAX_32 {
        if r.end > last.end {
          merged := merged[|merged| - 1 := last.(end := r.end)];
        }
      } else {
        merged := merged + [r];
      }
      i := i + 1;
    }
  }

  /**
   * mergeRanges: sorts its argument in place and merges overlapping or touching neighbours.
   * For every input order the union of the ranges is kept.
   */
  method MergeRanges(rs: array<Range>) returns (merged: seq<Range>)
    requires ValidRanges(rs[..])
    modifies rs
    ensures SortedByStart(rs[..]) && multiset(rs[..]) == multiset(old(rs[..]))
    ensures Merged(merged) && |merged| <= rs.Length
    ensures SameUnion(merged, old(rs[..]))
  {
    if rs.Length == 0 {
      return rs[..];
    }
    SortByStart(rs);
    StillValid(rs[..], old(rs[..]));
    merged := MergeSorted(rs[..]);
    MergeEnd(merged, rs[..], old(rs[..]));
  }

  lemma StillValid(sorted: seq<Range>, rs: seq<Range>)
    requires multiset(sorted) == multiset(rs) && ValidRanges(rs)
    ensures ValidRanges(sorted)
  {
    forall r | r in sorted ensures r.start <= r.end {
      assert r in multiset(rs);
    }
  }

  /** All neighbours are separated exactly when only the last range may end at the last address. */
  lemma FullySeparatedIff(rs: seq<Range>)
    requires Merged(rs)
    ensures (forall i :: 0 <= i < |rs| - 1 ==> rs[i].end + 1 < rs[i + 1].start)
            <==> (forall i :: 0 <= i < |rs| - 1 ==> rs[i].end < MAX_32)
  {
    if forall i :: 0 <= i < |rs| - 1 ==> rs[i].end + 1 < rs[i + 1].start {
      forall i | 0 <= i < |rs| - 1 ensures rs[i].end < MAX_32 {
        assert rs[i].end + 1 < rs[i + 1].start;
      }
    }
    if forall i :: 0 <= i < |rs| - 1 ==> rs[i].end < MAX_32 {
      forall i | 0 <= i < |rs| - 1 ensures rs[i].end + 1 < rs[i + 1].start {
        assert BelowTop(rs, i);
      }
    }
  }
}

/** The split-tunnel address list: everything except the excluded networks, as CIDR blocks. */
module Routing {
  import opened Words
  import opened Text
  import opened Blocks
  import opened Cidr
  import opened Decompose
  import opened Merge

  datatype RoutingMode = Full | SplitRU | Other

  const FULL_ALLOWED_IPS := "0.0.0.0/0, ::/0"

  const PRIVATE_CIDRS: seq<string> := [
    "0.0.0.0/8", "10.0.0.0/8", "100.64.0.0/10", "127.0.0.0/8", "169.254.0.0/16",
    "172.16.0.0/12", "192.168.0.0/16", "192.0.0.0/24", "192.0.2.0/24",
    "198.18.0.0/15", "198.51.100.0/24", "203.0.113.0/24", "224.0.0.0/4", "240.0.0.0/4"]

  // The complement of a merged list

  /** The addresses from first on that no range covers. */
  ghost function FreeFrom(rs: seq<Range>, first: u32): iset<int> {
    iset a: u32 | first <= a && !Covered(rs, a)
  }

  ghost function Free(rs: seq<Range>): iset<int> {
    FreeFrom(rs, 0)
  }

  /** Up to the first range that ends at the last address, the ranges are disjoint and ascending. */
  ghost predicate Disjoint(rs: seq<Range>) {
    && ValidRanges(rs) && SortedByStart(rs)
    && forall i :: 0 <= i < |rs| - 1 && BelowTop(rs, i) ==> rs[i].end < rs[i + 1].start
  }

  /** The blocks that computeComplement prints when it stands at cursor. */
  function ComplementBlocks(rs: seq<Range>, cursor: u32): (bs: seq<Block>)
    ensures forall i :: 0 <= i < |bs| ==> bs[i].bits <= 32
    decreases |rs|, 1
  {
    if rs == [] then Greedy(cursor, MAX_32)
    else GapBlocks(cursor, rs[0].start) + RestBlocks(rs)
  }

  lemma DisjointTail(rs: seq<Range>)
    requires rs != [] && Disjoint(rs) && rs[0].end != MAX_32
    ensures Disjoint(rs[1..])
    ensures |rs| > 1 ==> rs[0].end < rs[1].start
  {
    var tail := rs[1..];
    assert |rs| > 1 ==> BelowTop(rs, 0);
    forall i | 0 <= i < |tail| - 1 && BelowTop(tail, i) ensures tail[i].end < tail[i + 1].start {
      assert forall k :: 0 < k <= i + 1 ==> rs[k] == tail[k - 1];
      assert BelowTop(rs, i + 1);
    }
  }

  /** Before the first range lies the gap, after it what the rest leaves free. */
  lemma FreeSplits(rs: seq<Range>, cursor: u32)
    requires rs != [] && Disjoint(rs) && cursor <= rs[0].start
    ensures FreeFrom(rs, cursor) == Interval(cursor, rs[0].start - 1) + RestFree(rs)
  {
    var r := rs[0];
    forall a: u32
      ensures Covered(rs, a) <==> InRange(r, a) || Covered(rs[1..], a)
      ensures a < r.start ==> !Covered(rs, a)
    {
      assert rs == [r] + rs[1..];
      if Covered(rs, a) {
        var x :| x in rs && InRange(x, a);
        assert r.start <= x.start;
        assert x == r || x in rs[1..];
      }
      assert r in rs;
    }
  }

  /** The blocks before range rs[0]. */
  function GapBlocks(cursor: u32, start: u32): (bs: seq<Block>)
    ensures forall i :: 0 <= i < |bs| ==> bs[i].bits <= 32
  {
    if start > cursor then Greedy(cursor, start - 1) else []
  }

  /** The blocks after range rs[0]. */
  function RestBlocks(rs: seq<Range>): (bs: seq<Block>)
    requires rs != []
    ensures forall i :: 0 <= i < |bs| ==> bs[i].bits <= 32
    decreases |rs|, 0
  {
    if rs[0].end == MAX_32 then [] else ComplementBlocks(rs[1..], rs[0].end + 1)
  }

  ghost function RestFree(rs: seq<Range>): iset<int>
    requires rs != []
  {
    if rs[0].end == MAX_32 then iset{} else FreeFrom(rs[1..], rs[0].end + 1)
  }

  /** Walking a disjoint list from cursor yields the canonical list of the free addresses. */
  lemma {:induction false} ComplementFrom(rs: seq<Range>, cursor: u32)
    requires Disjoint(rs) && (rs != [] ==> cursor <= rs[0].start)
    ensures Canonical(ComplementBlocks(rs, cursor), FreeFrom(rs, cursor))
    decreases |rs|, 1
  {
    if rs == [] {
      GreedyIsCanonical(cursor, MAX_32);
      CanonicalSameSet(Greedy(cursor, MAX_32), Interval(cursor, MAX_32), FreeFrom(rs, cursor));
    } else {
      RestCanonical(rs);
      GapCanonical(cursor, rs[0].start);
      FreeSplits(rs, cursor);
      RestAbove(rs);
      hide Canonical;
      CanonicalConcat(GapBlocks(cursor, rs[0].start), Interval(cursor, rs[0].start - 1),
                      RestBlocks(rs), RestFree(rs), rs[0].start);
    }
  }

  lemma {:induction false} RestCanonical(rs: seq<Range>)
    requires rs != [] && Disjoint(rs)
    ensures Canonical(RestBlocks(rs), RestFree(rs))
    decreases |rs|, 0
  {
    if rs[0].end == MAX_32 {
      NothingCanonical(iset{});
    } else {
      DisjointTail(rs);
      ComplementFrom(rs[1..], rs[0].end + 1);
    }
  }

  lemma RestAbove(rs: seq<Range>)
    requires rs != [] && Disjoint(rs)
    ensures forall a :: a in RestFree(rs) ==> rs[0].start < a
  {
    assert rs[0].start <= rs[0].end;
  }

  lemma CanonicalSameSet(bs: seq<Block>, s: iset<int>, t: iset<int>)
    requires Canonical(bs, s)
    requires forall a: u32 :: a in s <==> a in t
    ensures Canonical(bs, t)
  {
    forall i | 0 <= i < |bs| ensures Maximal(bs[i], t) {
      assert Maximal(bs[i], s);
    }
  }

  lemma NothingCanonical(s: iset<int>)
    requires forall a: u32 :: a !in s
    ensures Canonical([], s)
  {
  }

  lemma GapCanonical(cursor: u32, start: u32)
    ensures Canonical(GapBlocks(cursor, start), Interval(cursor, start - 1))
  {
    if start > cursor {
      GreedyIsCanonical(cursor, start - 1);
    } else {
      NothingCanonical(Interval(cursor, start - 1));
    }
  }

  /** The complement of a disjoint list: exact, aligned, ascending and without two mergeable blocks. */
  lemma ComplementIsCanonical(rs: seq<Range>)
    requires Disjoint(rs)
    ensures Canonical(ComplementBlocks(rs, 0), Free(rs))
  {
    ComplementFrom(rs, 0);
  }

  lemma MergedIsDisjoint(rs: seq<Range>)
    requires Merged(rs)
    ensures Disjoint(rs)
  {
  }

  /** At most 62 blocks fill each gap between excluded ranges. */
  lemma {:induction false} ComplementSize(rs: seq<Range>, cursor: u32)
    ensures |ComplementBlocks(rs, cursor)| <= 62 * (|rs| + 1)
    decreases |rs|
  {
    hide Greedy;
    if rs == [] {
      AtMost62Blocks(cursor, MAX_32);
    } else {
      if rs[0].start > cursor {
        AtMost62Blocks(cursor, rs[0].start - 1);
      }
      if rs[0].end != MAX_32 {
        ComplementSize(rs[1..], rs[0].end + 1);
      }
    }
  }

  lemma PrintJoin(bs: seq<Block>, cs: seq<Block>)
    requires forall i :: 0 <= i < |bs| ==> bs[i].bits <= 32
    requires forall i :: 0 <= i < |cs| ==> cs[i].bits <= 32
    ensures PrintAll(bs + cs) == PrintAll(bs) + PrintAll(cs)
  {
  }

  /** out prints the blocks cut so far, and what follows comes from the ranges from position i on. */
  ghost predicate Progress(rs: seq<Range>, i: nat, cursor: u32, done: seq<Block>, out: seq<string>)
    requires i <= |rs|
  {
    && (forall k :: 0 <= k < |done| ==> done[k].bits <= 32)
    && out == PrintAll(done)
    && ComplementBlocks(rs, 0) == done + ComplementBlocks(rs[i..], cursor)
  }

  lemma ProgressStart(rs: seq<Range>)
    ensures Progress(rs, 0, 0, [], [])
  {
    assert rs[0..] == rs;
  }

  lemma ComplementUnfold(rs: seq<Range>, i: nat, cursor: u32)
    requires i < |rs|
    ensures ComplementBlocks(rs[i..], cursor)
            == GapBlocks(cursor, rs[i].start)
               + if rs[i].end == MAX_32 then [] else ComplementBlocks(rs[i + 1..], rs[i].end + 1)
  {
    assert rs[i..][1..] == rs[i + 1..];
  }

  lemma Regroup<T>(a: seq<T>, b: seq<T>, c: seq<T>)
    ensures a + (b + c) == (a + b) + c
    ensures a + [] == a
  {
  }

  /** One more range: the gap before it is printed. */
  lemma ProgressStep(rs: seq<Range>, i: nat, cursor: u32, done: seq<Block>, out: seq<string>)
    requires i < |rs| && rs[i].end < MAX_32 && Progress(rs, i, cursor, done, out)
    ensures var gap := GapBlocks(cursor, rs[i].start);
            Progress(rs, i + 1, rs[i].end + 1, done + gap, out + PrintAll(gap))
  {
    var gap := GapBlocks(cursor, rs[i].start);
    ComplementUnfold(rs, i, cursor);
    PrintJoin(done, gap);
    hide ComplementBlocks, PrintAll, GapBlocks;
    Regroup(done, gap, ComplementBlocks(rs[i + 1..], rs[i].end + 1));
  }

  /** A range that ends at the last address ends it all. */
  lemma ProgressLast(rs: seq<Range>, i: nat, cursor: u32, done: seq<Block>, out: seq<string>)
    requires i < |rs| && rs[i].end == MAX_32 && Progress(rs, i, cursor, done, out)
    ensures out + PrintAll(GapBlocks(cursor, rs[i].start)) == PrintAll(ComplementBlocks(rs, 0))
  {
    var gap := GapBlocks(cursor, rs[i].start);
    ComplementUnfold(rs, i, cursor);
    PrintJoin(done, gap);
    hide ComplementBlocks, PrintAll, GapBlocks;
    Regroup(gap, [], []);
  }

  lemma ProgressEnd(rs: seq<Range>, cursor: u32, done: seq<Block>, out: seq<string>)
    requires Progress(rs, |rs|, cursor, done, out)
    ensures out + PrintAll(Greedy(cursor, MAX_32)) == PrintAll(ComplementBlocks(rs, 0))
  {
    assert ComplementBlocks(rs[|rs|..], cursor) == Greedy(cursor, MAX_32);
    PrintJoin(done, Greedy(cursor, MAX_32));
  }

  lemma EmptyGap(cursor: u32, start: u32)
    requires start <= cursor
    ensures PrintAll(GapBlocks(cursor, start)) == []
  {
  }

  /** computeComplement, for any argument; its blocks are the canonical ones when the argument is disjoint. */
  method ComputeComplement(excluded: seq<Range>) returns (out: seq<string>)
    ensures out == PrintAll(ComplementBlocks(excluded, 0))
  {
    hide ComplementBlocks, PrintAll, Greedy, Progress;
    out := [];
    ghost var done: seq<Block> := [];
    ProgressStart(excluded);
    var cursor: u32 := 0;
    var started := false;
    var i := 0;
    while i < |excluded|
      invariant 0 <= i <= |excluded|
      invariant Progress(excluded, i, cursor, done, out)
    {
      var r := excluded[i];
      if r.end == MAX_32 {
        ProgressLast(excluded, i, cursor, done, out);
      } else {
        ProgressStep(excluded, i, cursor, done, out);
      }
      if r.start > cursor || (!started && r.start == 0) {
        if r.start > cursor {
          var cut := RangeToCIDRs(cursor, r.start - 1);
          out := out + cut;
        }
      }
      if r.start <= cursor {
        EmptyGap(cursor, r.start);
        assert out + [] == out;
      }
      done := done + GapBlocks(cursor, r.start);
      if r.end == MAX_32 {
        return;
      }
      cursor := r.end + 1;
      started := true;
      i := i + 1;
    }
    ProgressEnd(excluded, cursor, done, out);
    var cut := RangeToCIDRs(cursor, MAX_32);
    out := out + cut;
  }

  // Parsing the exclusion lists

  /** What one line adds to the ranges. */
  function LineAdds(line: string): seq<Range> {
    match LineRange(line)
    case None => []
    case Some(r) => [r]
  }

  /** The ranges of all lines that parse, in order. */
  function LineRanges(lines: seq<string>): seq<Range> {
    if lines == [] then [] else LineRanges(lines[..|lines| - 1]) + LineAdds(lines[|lines| - 1])
  }

  /** Some line of the list names a network that contains a. */
  ghost predicate Names(lines: seq<string>, a: u32) {
    exists line, p :: line in lines && ParseCIDR(TrimSpace(line)) == Some(p)
                      && Shr(a, 32 - p.ones) == Shr(p.network, 32 - p.ones)
  }

  lemma NamesEither(some: seq<string>, others: seq<string>, a: u32)
    ensures Names(some + others, a) <==> Names(some, a) || Names(others, a)
  {
    hide ParseCIDR, TrimSpace, Shr;
  }

  /** The line names the range of a valid prefix. */
  lemma LineRangeMeans(line: string)
    requires LineRange(line).Some?
    ensures ParseCIDR(TrimSpace(line)).Some?
    ensures LineRange(line).value == PrefixRange(ParseCIDR(TrimSpace(line)).value)
    ensures LineRange(line).value.start <= LineRange(line).value.end
  {
    PrefixRangeIsBlock(ParseCIDR(TrimSpace(line)).value);
  }

  lemma {:induction false} LineRangesMean(lines: seq<string>)
    ensures ValidRanges(LineRanges(lines))
    ensures forall r :: r in LineRanges(lines) <==> exists line :: line in lines && LineRange(line) == Some(r)
  {
    hide LineRange;
    if lines != [] {
      var init, line := lines[..|lines| - 1], lines[|lines| - 1];
      LineRangesMean(init);
      assert lines == init + [line];
      if LineRange(line).Some? {
        LineRangeMeans(line);
      }
    }
  }

  /** An address is covered by the parsed ranges exactly when a line excludes it. */
  lemma CoveredIffExcluded(lines: seq<string>, a: u32)
    ensures Covered(LineRanges(lines), a) <==> Names(lines, a)
  {
    hide LineRange, LineRanges, ParseCIDR, TrimSpace, Shr, PrefixRange;
    LineRangesMean(lines);
    if Covered(LineRanges(lines), a) {
      var r :| r in LineRanges(lines) && InRange(r, a);
      var line :| line in lines && LineRange(line) == Some(r);
      LineRangeMeans(line);
      PrefixMembership(ParseCIDR(TrimSpace(line)).value, a);
    }
    if Names(lines, a) {
      var line, p :| line in lines && ParseCIDR(TrimSpace(line)) == Some(p)
                     && Shr(a, 32 - p.ones) == Shr(p.network, 32 - p.ones);
      PrefixMembership(p, a);
      LineOfParsed(line, p);
    }
  }

  lemma LineOfParsed(line: string, p: Prefix)
    requires ParseCIDR(TrimSpace(line)) == Some(p)
    ensures LineRange(line) == Some(PrefixRange(p))
  {
  }

  /** The add closure of excludedRanges: appends the range of a line, ignoring lines that do not parse. */
  method Add(ranges: seq<Range>, cidr: string) returns (grown: seq<Range>)
    ensures grown == ranges + LineAdds(cidr)
  {
    var trimmed := TrimSpace(cidr);
    if trimmed == "" {
      return ranges;
    }
    var n := ParseCIDR(trimmed);
    if n.None? {
      return ranges;
    }
    var start: int := n.value.network;
    var size: int := Shl32(1, 32 - n.value.ones);
    grown := ranges + [Range(start, Wrap32(Wrap32(start + size) - 1))];
  }

  /** excludedRanges: the merged ranges of the two package variables, the embedded text and the private list. */
  method ExcludedRanges(ruCIDRs: string, privateCIDRs: seq<string>) returns (merged: seq<Range>)
    ensures Merged(merged)
    ensures forall a: u32 :: Covered(merged, a) <==> Names(Split(ruCIDRs, "\n"), a) || Names(privateCIDRs, a)
  {
    hide Split, LineRanges, LineRange, LineAdds, ParseCIDR, TrimSpace, Merged, Covered, Names, ValidRanges;
    var ranges: seq<Range> := [];
    NoLines();
    var lines := Split(ruCIDRs, "\n");
    ghost var all := lines + privateCIDRs;
    assert [] + lines == lines;
    ranges := AddAll(ranges, lines, [], lines);
    ranges := AddAll(ranges, privateCIDRs, lines, all);
    LineRangesMean(all);
    var rs := new Range[|ranges|](i requires 0 <= i < |ranges| => ranges[i]);
    assert rs[..] == ranges;
    merged := MergeRanges(rs);
    UnionIsNamed(merged, lines, privateCIDRs);
  }

  lemma NoLines()
    ensures LineRanges([]) == []
  {
  }

  lemma UnionIsNamed(merged: seq<Range>, some: seq<string>, others: seq<string>)
    requires SameUnion(merged, LineRanges(some + others))
    ensures forall a: u32 :: Covered(merged, a) <==> Names(some, a) || Names(others, a)
  {
    forall a: u32 ensures Covered(merged, a) <==> Names(some, a) || Names(others, a) {
      CoveredIffExcluded(some + others, a);
      NamesEither(some, others, a);
    }
  }

  method AddAll(ranges: seq<Range>, lines: seq<string>, ghost before: seq<string>, ghost all: seq<string>)
    returns (grown: seq<Range>)
    requires ranges == LineRanges(before) && all == before + lines
    ensures grown == LineRanges(all)
  {
    hide LineRange, LineAdds;
    grown := ranges;
    assert all[..|before|] == before;
    for i := 0 to |lines|
      invariant grown == LineRanges(all[..|before| + i])
    {
      grown := Add(grown, lines[i]);
      var next := all[..|before| + i + 1];
      assert next[..|next| - 1] == all[..|before| + i] && next[|next| - 1] == lines[i];
    }
    assert all[..|before| + |lines|] == all;
  }

  // The whole list

  ghost function NotExcluded(lines: seq<string>): iset<int> {
    iset a: u32 | !Names(lines, a)
  }

  /** s prints the canonical list of the addresses that no line excludes. */
  ghost predicate IsAllowedList(s: string, lines: seq<string>) {
    exists bs :: Canonical(bs, NotExcluded(lines)) && s == Join(PrintAll(bs), ", ")
  }
}

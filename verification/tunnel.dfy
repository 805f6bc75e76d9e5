/** What the printed split-tunnel list guarantees to whoever reads it. */
module Tunnel {
  import opened Words
  import opened Text
  import opened Blocks
  import opened Cidr
  import opened Decompose
  import opened Merge
  import opened Routing

  function BlockRange(b: Block): Range
    requires Aligned(b)
  {
    BlockFits(b);
    Range(b.base, b.base + Pow2(b.bits) - 1)
  }

  /** A list as its readers see it: the entries between the separators. */
  function Entries(s: string): seq<string> {
    Split(s, ", ")
  }

  lemma BlockRangePrinted(b: Block)
    requires Aligned(b)
    ensures LineAdds(PrintBlock(b)) == [BlockRange(b)]
  {
    hide PrintBlock, LineRange, PrefixRange;
    PrintedBlockRange(b);
    PrefixRangeIsBlock(Prefix(b.base, 32 - b.bits));
  }

  function BlockRanges(bs: seq<Block>): (rs: seq<Range>)
    requires AllAligned(bs)
    ensures |rs| == |bs| && forall i :: 0 <= i < |bs| ==> rs[i] == BlockRange(bs[i])
  {
    seq(|bs|, i requires 0 <= i < |bs| => BlockRange(bs[i]))
  }

  lemma {:induction false} PrintedRanges(bs: seq<Block>)
    requires AllAligned(bs)
    ensures LineRanges(PrintAll(bs)) == BlockRanges(bs)
  {
    hide LineAdds, PrintBlock, BlockRange, LowClear;
    if bs != [] {
      var init, b := bs[..|bs| - 1], bs[|bs| - 1];
      PrintedRanges(init);
      BlockRangePrinted(b);
      assert PrintAll(bs)[..|bs| - 1] == PrintAll(init);
      assert BlockRanges(bs) == BlockRanges(init) + [BlockRange(b)];
    }
  }

  lemma EntriesOfPrinted(bs: seq<Block>)
    requires AllAligned(bs)
    ensures Entries(Join(PrintAll(bs), ", ")) == if bs == [] then [""] else PrintAll(bs)
  {
    if bs == [] {
      PrintNone();
      IndexAbsent("", ", ");
    } else {
      forall p | p in PrintAll(bs) ensures ',' !in p {
        var i :| 0 <= i < |bs| && p == PrintBlock(bs[i]);
        PrintedWithoutSeparators(bs[i]);
      }
      SplitJoin(PrintAll(bs), ", ");
    }
  }

  lemma EmptyLineAddsNothing()
    ensures LineRanges([""]) == []
  {
    IndexAbsent("", "/");
    assert TrimSpace("") == "";
    assert LineAdds("") == [];
    assert [""][..0] == [];
    assert LineRanges([]) == [];
  }

  /** Reading a printed list back gives the ranges of its blocks, in order; nothing for the empty list. */
  lemma ReadBack(bs: seq<Block>)
    requires AllAligned(bs)
    ensures LineRanges(Entries(Join(PrintAll(bs), ", "))) == BlockRanges(bs)
  {
    EntriesOfPrinted(bs);
    if bs == [] {
      EmptyLineAddsNothing();
    } else {
      PrintedRanges(bs);
    }
  }

  /** An address lies in some entry of the printed list exactly when it lies in some block. */
  lemma EntriesMean(bs: seq<Block>, a: u32)
    requires AllAligned(bs)
    ensures Names(Entries(Join(PrintAll(bs), ", ")), a) <==> InBlocks(bs, a)
  {
    hide Names, Covered, Entries, Join, PrintAll, LineRanges;
    ReadBack(bs);
    CoveredIffExcluded(Entries(Join(PrintAll(bs), ", ")), a);
    CoveredByBlocks(bs, a);
  }

  lemma CoveredByBlocks(bs: seq<Block>, a: u32)
    requires AllAligned(bs)
    ensures Covered(BlockRanges(bs), a) <==> InBlocks(bs, a)
  {
    var rs := BlockRanges(bs);
    if InBlocks(bs, a) {
      var i := BlockAt(bs, a);
      assert rs[i] in rs && InRange(rs[i], a);
    }
    if Covered(rs, a) {
      var r :| r in rs && InRange(r, a);
      var i :| 0 <= i < |bs| && r == rs[i];
      assert InBlock(bs[i], a);
    }
  }

  /** An address is tunnelled, that is named by some entry, exactly when no exclusion line names it. */
  lemma TunnelledIffNotExcluded(s: string, lines: seq<string>, a: u32)
    requires IsAllowedList(s, lines)
    ensures Names(Entries(s), a) <==> !Names(lines, a)
  {
    var bs :| Canonical(bs, NotExcluded(lines)) && s == Join(PrintAll(bs), ", ");
    EntriesMean(bs, a);
  }

  /** No list of aligned blocks that covers exactly the addresses left over is shorter than the printed one. */
  lemma PrintedListIsShortest(s: string, lines: seq<string>, other: seq<Block>)
    requires IsAllowedList(s, lines)
    requires AllAligned(other) && Exactly(other, NotExcluded(lines))
    ensures |LineRanges(Entries(s))| <= |other|
  {
    var bs :| Canonical(bs, NotExcluded(lines)) && s == Join(PrintAll(bs), ", ");
    ReadBack(bs);
    CanonicalIsMinimal(bs, other, NotExcluded(lines));
  }

  /** The printed list depends only on which addresses are excluded, not on how the lines say it. */
  lemma PrintedListIsDetermined(s: string, lines: seq<string>, s': string, lines': seq<string>)
    requires IsAllowedList(s, lines) && IsAllowedList(s', lines')
    requires forall a: u32 :: Names(lines, a) <==> Names(lines', a)
    ensures s == s'
  {
    var bs :| Canonical(bs, NotExcluded(lines)) && s == Join(PrintAll(bs), ", ");
    var cs :| Canonical(cs, NotExcluded(lines')) && s' == Join(PrintAll(cs), ", ");
    CanonicalSameSet(cs, NotExcluded(lines'), NotExcluded(lines));
    CanonicalIsUnique(bs, cs, NotExcluded(lines));
  }

  /** Excluding what a list allows, and excluding that again, comes back to the same list. */
  lemma ComplementTwice(s: string, lines: seq<string>, t: string, u: string, a: u32)
    requires IsAllowedList(s, lines) && IsAllowedList(t, Entries(s)) && IsAllowedList(u, Entries(t))
    ensures Names(Entries(t), a) <==> Names(lines, a)
    ensures u == s
  {
    forall a: u32 ensures Names(Entries(t), a) <==> Names(lines, a) {
      TunnelledIffNotExcluded(s, lines, a);
      TunnelledIffNotExcluded(t, Entries(s), a);
    }
    PrintedListIsDetermined(s, lines, u, Entries(t));
  }
}

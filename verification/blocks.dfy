/** Aligned power-of-two address blocks, and which lists of them cover a set of addresses best. */
module Blocks {
  import opened Words

  /** The addresses base .. base + 2^bits - 1, written base/(32 - bits) in CIDR notation. */
  datatype Block = Block(base: u32, bits: nat)

  predicate Aligned(b: Block) {
    b.bits <= 32 && LowClear(b.base, b.bits)
  }

  predicate InBlock(b: Block, a: int) {
    b.base <= a < b.base + Pow2(b.bits)
  }

  predicate Within(b: Block, c: Block) {
    c.base <= b.base && b.base + Pow2(b.bits) <= c.base + Pow2(c.bits)
  }

  ghost predicate InBlocks(bs: seq<Block>, a: int) {
    exists i :: 0 <= i < |bs| && InBlock(bs[i], a)
  }

  /** The blocks contain exactly the addresses of s. */
  ghost predicate Exactly(bs: seq<Block>, s: iset<int>) {
    forall a: u32 :: InBlocks(bs, a) <==> a in s
  }

  ghost predicate AllAligned(bs: seq<Block>) {
    forall i :: 0 <= i < |bs| ==> Aligned(bs[i])
  }

  ghost predicate Ascending(bs: seq<Block>) {
    forall i, j :: 0 <= i < j < |bs| ==> bs[i].base + Pow2(bs[i].bits) <= bs[j].base
  }

  /** The aligned block of twice the size around b. */
  function Parent(b: Block): (p: Block)
    requires Aligned(b) && b.bits < 32
    ensures Aligned(p) && Within(b, p) && p.bits == b.bits + 1
  {
    if LowClear(b.base, b.bits + 1) then Block(b.base, b.bits + 1)
    else (LowClearNext(b.base, b.bits); Block(b.base - Pow2(b.bits), b.bits + 1))
  }

  /** b cannot be doubled without leaving s. */
  ghost predicate Maximal(b: Block, s: iset<int>)
    requires Aligned(b)
  {
    b.bits < 32 ==> exists a: u32 :: a !in s && InBlock(Parent(b), a)
  }

  /** Aligned blocks in ascending order that cover exactly s, none of which can be doubled. */
  ghost predicate Canonical(bs: seq<Block>, s: iset<int>) {
    && AllAligned(bs)
    && Ascending(bs)
    && Exactly(bs, s)
    && forall i :: 0 <= i < |bs| ==> Maximal(bs[i], s)
  }

  predicate Between(first: int, a: int, last: int) {
    first <= a <= last
  }

  ghost function Interval(first: int, last: int): iset<int> {
    iset a: int | Between(first, a, last)
  }

  // Alignment

  /** Two aligned blocks with an address in common are nested. */
  lemma NestedOrDisjoint(b: Block, c: Block, a: nat)
    requires Aligned(b) && Aligned(c) && b.bits <= c.bits
    requires InBlock(b, a) && InBlock(c, a)
    ensures Within(b, c)
  {
    NestedStarts(b.base, b.bits, c.base, c.bits, a);
  }

  lemma {:induction false} NestedStarts(b: nat, i: nat, c: nat, j: nat, a: nat)
    requires i <= j && LowClear(b, i) && LowClear(c, j)
    requires b <= a < b + Pow2(i) && c <= a < c + Pow2(j)
    ensures c <= b && b + Pow2(i) <= c + Pow2(j)
  {
    if i > 0 {
      NestedStarts(b / 2, i - 1, c / 2, j - 1, a / 2);
    }
  }

  lemma BlockFits(b: Block)
    requires Aligned(b)
    ensures b.base + Pow2(b.bits) <= TWO_32
  {
    PowersOfTwo();
    ZeroLowClear(32);
    NestedOrDisjoint(b, Block(0, 32), b.base);
  }

  /** A larger aligned block that meets b contains the parent of b. */
  lemma ParentInside(b: Block, c: Block, a: nat)
    requires Aligned(b) && Aligned(c) && b.bits < c.bits
    requires InBlock(b, a) && InBlock(c, a)
    ensures Within(Parent(b), c)
  {
    NestedOrDisjoint(Parent(b), c, a);
  }

  // What a canonical list is good for

  ghost function BlockAt(bs: seq<Block>, a: int): (i: nat)
    requires InBlocks(bs, a)
    ensures i < |bs| && InBlock(bs[i], a)
  {
    var i :| 0 <= i < |bs| && InBlock(bs[i], a);
    i
  }

  /** In a list that covers exactly s, no block reaches over two blocks of a canonical list. */
  lemma OneCanonicalBlock(bs: seq<Block>, c: Block, s: iset<int>, i: nat, k: nat)
    requires Canonical(bs, s) && Aligned(c)
    requires forall a: u32 :: InBlock(c, a) ==> a in s
    requires i < k < |bs|
    ensures !(InBlock(c, bs[i].base) && InBlock(c, bs[k].base))
  {
    if InBlock(c, bs[i].base) && InBlock(c, bs[k].base) {
      if c.bits <= bs[i].bits {
        NestedOrDisjoint(c, bs[i], bs[i].base);
      } else {
        ParentInside(bs[i], c, bs[i].base);
      }
    }
  }

  /** No list of aligned blocks, overlapping or not, covers s with fewer blocks than a canonical one. */
  lemma CanonicalIsMinimal(bs: seq<Block>, other: seq<Block>, s: iset<int>)
    requires Canonical(bs, s)
    requires AllAligned(other) && Exactly(other, s)
    ensures |bs| <= |other|
  {
    forall i | 0 <= i < |bs| ensures InBlocks(other, bs[i].base) {
      assert InBlock(bs[i], bs[i].base);
    }
    var f := seq(|bs|, i requires 0 <= i < |bs| => BlockAt(other, bs[i].base));
    forall i, k | 0 <= i < k < |bs| ensures f[i] != f[k] {
      var c := other[f[i]];
      forall a: u32 | InBlock(c, a) ensures a in s {
        assert InBlocks(other, a);
      }
      OneCanonicalBlock(bs, c, s, i, k);
    }
    Pigeonhole(f, |other|);
  }

  lemma Pigeonhole(f: seq<nat>, n: nat)
    requires forall i :: 0 <= i < |f| ==> f[i] < n
    requires forall i, k :: 0 <= i < k < |f| ==> f[i] != f[k]
    ensures |f| <= n
  {
    var values := set i | 0 <= i < |f| :: f[i];
    DistinctCount(f, values);
    SubsetCount(values, UpTo(n));
  }

  lemma {:induction false} DistinctCount(f: seq<nat>, values: set<nat>)
    requires values == set i | 0 <= i < |f| :: f[i]
    requires forall i, k :: 0 <= i < k < |f| ==> f[i] != f[k]
    ensures |values| == |f|
  {
    if f != [] {
      var init := f[..|f| - 1];
      var fewer := set i | 0 <= i < |init| :: init[i];
      DistinctCount(init, fewer);
      assert values == fewer + {f[|f| - 1]};
    }
  }

  ghost function UpTo(n: nat): (s: set<nat>)
    ensures |s| == n
    ensures forall v: nat :: v in s <==> v < n
  {
    if n == 0 then {} else UpTo(n - 1) + {n - 1}
  }

  lemma SubsetCount<T>(a: set<T>, b: set<T>)
    requires a <= b
    ensures |a| <= |b|
  {
    assert b == a + (b - a);
  }

  /** Two canonical lists of the same set begin with the same block. */
  lemma CanonicalHead(bs: seq<Block>, cs: seq<Block>, s: iset<int>)
    requires Canonical(bs, s) && Canonical(cs, s)
    requires bs != [] && cs != []
    ensures bs[0] == cs[0]
  {
    FirstIsLeast(bs, cs, s);
    FirstIsLeast(cs, bs, s);
    if bs[0].bits < cs[0].bits {
      HeadNotLarger(bs[0], cs, s);
    } else if cs[0].bits < bs[0].bits {
      HeadNotLarger(cs[0], bs, s);
    }
  }

  lemma FirstIsLeast(bs: seq<Block>, cs: seq<Block>, s: iset<int>)
    requires Canonical(bs, s) && Canonical(cs, s) && bs != [] && cs != []
    ensures cs[0].base <= bs[0].base
  {
    assert InBlock(bs[0], bs[0].base);
    assert InBlocks(bs, bs[0].base);
    var j := BlockAt(cs, bs[0].base);
  }

  lemma HeadNotLarger(b: Block, cs: seq<Block>, s: iset<int>)
    requires Canonical(cs, s) && cs != [] && Aligned(b) && Maximal(b, s)
    requires b.base == cs[0].base
    ensures cs[0].bits <= b.bits
  {
    if b.bits < cs[0].bits {
      ParentInside(b, cs[0], b.base);
      forall a: u32 | InBlock(Parent(b), a) ensures a in s {
        assert InBlock(cs[0], a);
        assert InBlocks(cs, a);
      }
    }
  }

  /** A set of addresses has at most one canonical list: the list is determined by the set. */
  lemma {:induction false} CanonicalIsUnique(bs: seq<Block>, cs: seq<Block>, s: iset<int>)
    requires Canonical(bs, s) && Canonical(cs, s)
    ensures bs == cs
    decreases |bs|
  {
    if bs == [] || cs == [] {
      EmptyCanonical(bs, cs, s);
    } else {
      CanonicalHead(bs, cs, s);
      var rest := iset a | a in s && !InBlock(bs[0], a);
      CanonicalTail(bs, s, rest);
      CanonicalTail(cs, s, rest);
      CanonicalIsUnique(bs[1..], cs[1..], rest);
    }
  }

  lemma EmptyCanonical(bs: seq<Block>, cs: seq<Block>, s: iset<int>)
    requires Canonical(bs, s) && Canonical(cs, s)
    requires bs == [] || cs == []
    ensures bs == cs
  {
    if bs != [] {
      HeadCovered(bs, s);
    }
    if cs != [] {
      HeadCovered(cs, s);
    }
  }

  lemma HeadCovered(bs: seq<Block>, s: iset<int>)
    requires bs != [] && Exactly(bs, s)
    ensures bs[0].base in s
  {
    assert InBlock(bs[0], bs[0].base);
    assert InBlocks(bs, bs[0].base);
  }

  lemma CanonicalTail(bs: seq<Block>, s: iset<int>, rest: iset<int>)
    requires Canonical(bs, s) && bs != []
    requires rest == iset a | a in s && !InBlock(bs[0], a)
    ensures Canonical(bs[1..], rest)
  {
    var tail := bs[1..];
    forall i | 0 <= i < |tail| ensures tail[i] == bs[i + 1] && Aligned(tail[i]) && Maximal(tail[i], rest) {
      assert Maximal(bs[i + 1], s);
    }
    forall a: u32 ensures InBlocks(tail, a) <==> a in rest {
      if InBlocks(tail, a) {
        var i := BlockAt(tail, a);
        assert InBlock(bs[i + 1], a);
        assert InBlocks(bs, a);
      }
      if a in rest {
        var i := BlockAt(bs, a);
        assert InBlock(tail[i - 1], a);
      }
    }
  }

  lemma ExactlyConcat(bs: seq<Block>, s: iset<int>, cs: seq<Block>, t: iset<int>)
    requires Exactly(bs, s) && Exactly(cs, t)
    ensures Exactly(bs + cs, s + t)
  {
    var all := bs + cs;
    forall a: u32 ensures InBlocks(all, a) <==> InBlocks(bs, a) || InBlocks(cs, a) {
      InBlocksConcat(bs, cs, a);
    }
  }

  lemma InBlocksConcat(bs: seq<Block>, cs: seq<Block>, a: int)
    ensures InBlocks(bs + cs, a) <==> InBlocks(bs, a) || InBlocks(cs, a)
  {
    var all := bs + cs;
    if InBlocks(all, a) {
      var i := BlockAt(all, a);
      assert if i < |bs| then InBlock(bs[i], a) else InBlock(cs[i - |bs|], a);
    }
    if InBlocks(bs, a) {
      var i := BlockAt(bs, a);
      assert InBlock(all[i], a);
    }
    if InBlocks(cs, a) {
      var i := BlockAt(cs, a);
      assert InBlock(all[|bs| + i], a);
    }
  }

  /** Canonical lists on the two sides of an address outside both sets join to a canonical list. */
  lemma CanonicalConcat(bs: seq<Block>, s: iset<int>, cs: seq<Block>, t: iset<int>, gap: u32)
    requires Canonical(bs, s) && Canonical(cs, t)
    requires forall a :: a in s ==> a < gap
    requires forall a :: a in t ==> gap < a
    ensures Canonical(bs + cs, s + t)
  {
    ExactlyConcat(bs, s, cs, t);
    forall i | 0 <= i < |bs| ensures bs[i].base + Pow2(bs[i].bits) <= gap && Maximal(bs[i], s + t) {
      StaysBelow(bs, s, i, gap);
      MaximalBeside(bs[i], s, t, gap);
    }
    forall i | 0 <= i < |cs| ensures gap < cs[i].base && Maximal(cs[i], s + t) {
      StaysAbove(cs, t, i, gap);
      MaximalBeside(cs[i], t, s, gap);
      assert s + t == t + s;
    }
    forall i | 0 <= i < |bs + cs| ensures Aligned((bs + cs)[i]) && Maximal((bs + cs)[i], s + t) {
      assert (bs + cs)[i] == if i < |bs| then bs[i] else cs[i - |bs|];
    }
    AscendingConcat(bs, cs, gap);
  }

  lemma AscendingConcat(bs: seq<Block>, cs: seq<Block>, gap: int)
    requires Ascending(bs) && Ascending(cs)
    requires forall i :: 0 <= i < |bs| ==> bs[i].base + Pow2(bs[i].bits) <= gap
    requires forall i :: 0 <= i < |cs| ==> gap <= cs[i].base
    ensures Ascending(bs + cs)
  {
  }

  lemma StaysAbove(cs: seq<Block>, t: iset<int>, i: nat, gap: u32)
    requires Canonical(cs, t) && i < |cs|
    requires forall a :: a in t ==> gap < a
    ensures gap < cs[i].base
  {
    assert InBlock(cs[i], cs[i].base);
    assert InBlocks(cs, cs[i].base);
  }

  lemma StaysBelow(bs: seq<Block>, s: iset<int>, i: nat, gap: u32)
    requires Canonical(bs, s) && i < |bs|
    requires forall a :: a in s ==> a < gap
    ensures bs[i].base + Pow2(bs[i].bits) <= gap
  {
    BlockFits(bs[i]);
    var last: u32 := bs[i].base + Pow2(bs[i].bits) - 1;
    assert InBlock(bs[i], last);
    assert InBlocks(bs, last);
  }

  lemma MaximalBeside(b: Block, s: iset<int>, t: iset<int>, gap: u32)
    requires Aligned(b) && Maximal(b, s)
    requires gap !in s && gap !in t
    requires (b.base + Pow2(b.bits) <= gap && forall a :: a in t ==> gap < a)
             || (gap < b.base && forall a :: a in t ==> a < gap)
    ensures Maximal(b, s + t)
  {
    if b.bits < 32 {
      var a: u32 :| a !in s && InBlock(Parent(b), a);
      if a in t {
        assert InBlock(Parent(b), gap);
      }
    }
  }
}

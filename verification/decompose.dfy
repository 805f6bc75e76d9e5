/** Cutting a range of addresses greedily into aligned blocks. */
module Decompose {
  import opened Words
  import opened Text
  import opened Blocks
  import opened Cidr

  /** The exponent of the block cut off at start: limited by alignment and by what remains. */
  function GreedyBits(start: u32, end: u32): (k: nat)
    requires start <= end
    ensures k <= 32
  {
    TrailingZerosClear(start, 0);
    Min(TrailingZeros32(start), BitLen64(end - start + 1) - 1)
  }

  function Min(i: int, j: int): int {
    if i <= j then i else j
  }

  /** The blocks that the loop of RangeToCIDRs prints. */
  function Greedy(start: u32, end: u32): (bs: seq<Block>)
    ensures forall i :: 0 <= i < |bs| ==> bs[i].bits <= 32
    decreases end - start
  {
    if start > end then []
    else
      var k := GreedyBits(start, end);
      var next := start + Pow2(k);
      [Block(start, k)] + if next > MAX_32 then [] else Greedy(next, end)
  }

  /** The largest power of two that divides start; 2^32 for address zero. */
  function LowBit(start: u32): nat {
    Pow2(TrailingZeros32(start))
  }

  // How the greedy choice stays stuck between the ends of the range

  /** Fewer addresses lie between the left end and start than the alignment of start. */
  predicate Rising(left: u32, start: u32) {
    left <= start && start - left < LowBit(start)
  }

  /** Fewer addresses remain than the alignment of start. */
  predicate Falling(start: u32, end: u32) {
    start <= end && end - start + 1 < LowBit(start)
  }

  /** Every start that the loop reaches from the left end. */
  predicate WellPlaced(left: u32, start: u32, end: u32) {
    left <= start && (Rising(left, start) || Falling(start, end))
  }

  /** Doubling b would leave the range left .. end. */
  predicate Stuck(b: Block, left: u32, end: u32)
    requires Aligned(b)
  {
    b.bits < 32 ==> Parent(b).base < left || Parent(b).base + Pow2(b.bits + 1) > end + 1
  }

  lemma GreedyFits(start: u32, end: u32)
    requires start <= end
    ensures var k := GreedyBits(start, end);
            && 0 <= k <= TrailingZeros32(start) <= 32
            && Pow2(k) <= end - start + 1
            && (k < TrailingZeros32(start) ==> end - start + 1 < 2 * Pow2(k))
  {
    BitLenBounds(end - start + 1);
    TrailingZerosClear(start, 0);
    Pow2Monotone(GreedyBits(start, end), BitLen64(end - start + 1) - 1);
  }

  lemma AlignedStart(start: u32, k: nat)
    requires k <= TrailingZeros32(start)
    ensures Aligned(Block(start, k))
  {
    TrailingZerosClear(start, 0);
    TrailingZerosClear(start, k);
  }

  /** Where the next start ends up: better aligned if alignment limited the block, else exactly as the block. */
  lemma NextStart(start: u32, k: nat)
    requires k <= TrailingZeros32(start) && start + Pow2(k) <= MAX_32
    ensures k < TrailingZeros32(start) ==> TrailingZeros32(start + Pow2(k)) == k
    ensures k == TrailingZeros32(start) ==> TrailingZeros32(start + Pow2(k)) > k
  {
    if start == 0 {
      LowZerosOfPower(k);
      PowersOfTwo();
    } else {
      LowZerosAfterAdding(start, k);
    }
  }

  /** Where the parent of the block at start lies. */
  lemma ParentOfStart(start: u32, k: nat)
    requires k < 32 && k <= TrailingZeros32(start)
    ensures Aligned(Block(start, k))
    ensures Parent(Block(start, k)).base == if k < TrailingZeros32(start) then start else start - Pow2(k)
  {
    AlignedStart(start, k);
    TrailingZerosClear(start, k + 1);
  }

  /** One turn of the loop: the block fits and cannot be doubled within the range. */
  lemma GreedyChoiceIsStuck(left: u32, start: u32, end: u32)
    requires start <= end
    requires WellPlaced(left, start, end)
    ensures var k := GreedyBits(start, end);
            Aligned(Block(start, k)) && Pow2(k) <= end - start + 1 && Stuck(Block(start, k), left, end)
  {
    GreedyFits(start, end);
    AlignedStart(start, GreedyBits(start, end));
    if GreedyBits(start, end) < 32 {
      ParentOfStart(start, GreedyBits(start, end));
    }
  }

  /** One turn of the loop: the next start is as well placed as this one. */
  lemma GreedyKeepsPhase(left: u32, start: u32, end: u32)
    requires start <= end
    requires WellPlaced(left, start, end)
    requires start + Pow2(GreedyBits(start, end)) <= end
    ensures var next := start + Pow2(GreedyBits(start, end));
            WellPlaced(left, next, end)
  {
    var k := GreedyBits(start, end);
    var next: u32 := start + Pow2(k);
    GreedyFits(start, end);
    NextStart(start, k);
    if k == TrailingZeros32(start) {
      Pow2Monotone(k + 1, TrailingZeros32(next));
    }
  }

  /** The blocks are aligned and ascending, cover exactly start .. end, and are stuck in left .. end. */
  ghost predicate StuckCover(bs: seq<Block>, left: u32, start: u32, end: u32) {
    && AllAligned(bs) && Ascending(bs) && Exactly(bs, Interval(start, end))
    && forall i :: 0 <= i < |bs| ==> bs[i].base >= start && Stuck(bs[i], left, end)
  }

  /** The greedy blocks are aligned, ascending, exact, and each is stuck. */
  lemma {:induction false} GreedyBlocks(left: u32, start: u32, end: u32)
    requires start <= end
    requires WellPlaced(left, start, end)
    ensures StuckCover(Greedy(start, end), left, start, end)
    decreases end - start
  {
    hide Greedy, GreedyBits, Pow2, StuckCover, Stuck, WellPlaced;
    GreedyChoiceIsStuck(left, start, end);
    var b := Block(start, GreedyBits(start, end));
    var next := start + Pow2(b.bits);
    GreedyUnfold(start, end, []);
    assert [] + Greedy(start, end) == Greedy(start, end) && [] + [b] == [b];
    if next <= end {
      GreedyKeepsPhase(left, start, end);
      GreedyBlocks(left, next, end);
      JoinBlocks(b, Greedy(next, end), left, end);
    } else {
      SingleStuck(b, left, end);
    }
  }

  lemma SingleStuck(b: Block, left: u32, end: u32)
    requires Aligned(b) && Stuck(b, left, end) && b.base + Pow2(b.bits) == end + 1
    ensures StuckCover([b], left, b.base, end)
  {
    SingleBlock(b);
  }

  /** The first greedy block, behind blocks that were cut off before. */
  lemma GreedyUnfold(start: u32, end: u32, done: seq<Block>)
    requires start <= end
    ensures var b := Block(start, GreedyBits(start, end));
            var next := start + Pow2(b.bits);
            && (next > MAX_32 || next > end ==> done + Greedy(start, end) == done + [b])
            && (next <= MAX_32 ==> done + Greedy(start, end) == done + [b] + Greedy(next, end))
  {
  }

  lemma GreedyDone(start: u32, end: u32)
    requires start > end
    ensures Greedy(start, end) == []
  {
  }

  lemma JoinBlocks(b: Block, rest: seq<Block>, left: u32, end: u32)
    requires Aligned(b) && Stuck(b, left, end) && b.base + Pow2(b.bits) <= end
    requires StuckCover(rest, left, b.base + Pow2(b.bits), end)
    ensures StuckCover([b] + rest, left, b.base, end)
  {
    var next := b.base + Pow2(b.bits);
    SingleBlock(b);
    ExactlyConcat([b], Interval(b.base, next - 1), rest, Interval(next, end));
    assert Interval(b.base, next - 1) + Interval(next, end) == Interval(b.base, end);
  }

  lemma SingleBlock(b: Block)
    ensures Exactly([b], Interval(b.base, b.base + Pow2(b.bits) - 1))
  {
    forall a: u32 ensures InBlocks([b], a) <==> InBlock(b, a) {
      assert InBlock(b, a) ==> InBlock([b][0], a);
    }
  }

  lemma StuckIsMaximal(b: Block, left: u32, end: u32)
    requires Aligned(b) && Stuck(b, left, end)
    ensures Maximal(b, Interval(left, end))
  {
    if b.bits < 32 {
      var p := Parent(b);
      BlockFits(p);
      var a: u32 := if p.base < left then p.base else p.base + Pow2(p.bits) - 1;
      assert a !in Interval(left, end) && InBlock(p, a);
    }
  }

  /** The blocks cut from start .. end are the canonical list of that range: exact and shortest. */
  lemma GreedyIsCanonical(start: u32, end: u32)
    ensures Canonical(Greedy(start, end), Interval(start, end))
  {
    if start <= end {
      GreedyBlocks(start, start, end);
      var bs := Greedy(start, end);
      forall i | 0 <= i < |bs| ensures Maximal(bs[i], Interval(start, end)) {
        StuckIsMaximal(bs[i], start, end);
      }
    }
  }

  /** No list of aligned blocks whose union is exactly start .. end is shorter. */
  lemma GreedyIsOptimal(start: u32, end: u32, other: seq<Block>)
    requires AllAligned(other) && Exactly(other, Interval(start, end))
    ensures |Greedy(start, end)| <= |other|
  {
    GreedyIsCanonical(start, end);
    CanonicalIsMinimal(Greedy(start, end), other, Interval(start, end));
  }

  // The number of blocks

  /** Once the remainder limits, exponents fall: fewer than 2^k addresses take at most k blocks. */
  lemma {:induction false} FallingCount(start: u32, end: u32, k: nat)
    requires start <= end && k <= TrailingZeros32(start)
    requires end - start + 1 < Pow2(k)
    ensures |Greedy(start, end)| <= k
    decreases k
  {
    GreedyFits(start, end);
    var j := GreedyBits(start, end);
    Pow2Reflects(j, k);
    if start + Pow2(j) <= end {
      NextStart(start, j);
      FallingCount(start + Pow2(j), end, j);
    }
  }

  lemma RemainderBelow(start: u32, end: u32, t: nat)
    requires start <= end && t == TrailingZeros32(start) && GreedyBits(start, end) < t
    ensures end - start + 1 < Pow2(t)
  {
    GreedyFits(start, end);
    Pow2Monotone(GreedyBits(start, end), t);
  }

  /** While alignment limits, exponents rise; at most 62 blocks are needed in all. */
  lemma {:induction false} RisingCount(start: u32, end: u32)
    requires 0 < start <= end
    ensures |Greedy(start, end)| <= 62 - TrailingZeros32(start)
    decreases end - start
  {
    var t := TrailingZeros32(start);
    GreedyFits(start, end);
    TrailingZerosClear(start, 0);
    if GreedyBits(start, end) < t {
      RemainderBelow(start, end, t);
      FallingCount(start, end, t);
    } else if start + Pow2(t) <= end {
      NextStart(start, t);
      RisingCount(start + Pow2(t), end);
    }
  }

  lemma AtMost62Blocks(start: u32, end: u32)
    ensures |Greedy(start, end)| <= 62
  {
    if start == 0 {
      if GreedyBits(start, end) < 32 {
        RemainderBelow(start, end, 32);
        FallingCount(start, end, 32);
      } else {
        PowersOfTwo();
      }
    } else if start <= end {
      RisingCount(start, end);
    }
  }

  /** From 2^k to the last address but one: 31 - k rising blocks, then 31 falling ones. */
  lemma {:induction false} RisingExact(k: nat)
    requires k <= 31
    ensures Pow2(k) <= 0x8000_0000
    ensures |Greedy(Pow2(k), MAX_32 - 1)| == 62 - k
    decreases 31 - k
  {
    hide Greedy, GreedyBits, Pow2;
    PowersOfTwo();
    Pow2Monotone(k, 31);
    if k < 31 {
      RisingChoice(k);
      GreedyUnfold(Pow2(k), MAX_32 - 1, []);
      RisingExact(k + 1);
    } else {
      FallingExact(31, Pow2(31));
    }
  }

  lemma RisingChoice(k: nat)
    requires k < 31
    ensures Pow2(k) + Pow2(k) == Pow2(k + 1) <= 0x8000_0000
    ensures GreedyBits(Pow2(k), MAX_32 - 1) == k
  {
    PowersOfTwo();
    LowZerosOfPower(k);
    Pow2Monotone(k + 1, 31);
    GreedyChoice(Pow2(k), MAX_32 - 1, k);
  }

  /** The last 2^k - 1 addresses before the very last one take k blocks. */
  lemma {:induction false} FallingExact(k: nat, start: u32)
    requires 0 < k <= 31 && start == TWO_32 - Pow2(k)
    ensures |Greedy(start, MAX_32 - 1)| == k
  {
    hide Greedy, GreedyBits, Pow2;
    FallingChoice(k, start);
    GreedyUnfold(start, MAX_32 - 1, []);
    if k > 1 {
      FallingExact(k - 1, start + Pow2(k - 1));
    }
  }

  lemma FallingChoice(k: nat, start: u32)
    requires 0 < k <= 31 && start == TWO_32 - Pow2(k)
    ensures GreedyBits(start, MAX_32 - 1) == k - 1
    ensures start + Pow2(k - 1) == TWO_32 - Pow2(k - 1)
    ensures k == 1 ==> start + Pow2(k - 1) == MAX_32
  {
    PowersOfTwo();
    LowZerosOfDifference(32, k);
    GreedyChoice(start, MAX_32 - 1, k - 1);
  }

  lemma GreedyChoice(start: u32, end: u32, k: nat)
    requires start <= end && k <= TrailingZeros32(start)
    requires Pow2(k) <= end - start + 1
    requires k == TrailingZeros32(start) || end - start + 1 < 2 * Pow2(k)
    ensures GreedyBits(start, end) == k
  {
    Logarithm(end - start + 1, k);
    TrailingZerosClear(start, 0);
  }

  lemma Logarithm(n: u64, k: nat)
    requires Pow2(k) <= n
    ensures BitLen64(n) > k
    ensures n < 2 * Pow2(k) ==> BitLen64(n) == k + 1
  {
    BitLenBounds(n);
    Pow2Reflects(k, BitLen64(n));
    if n < Pow2(k + 1) {
      Pow2Reflects(BitLen64(n) - 1, k + 1);
    }
  }

  /** The bound of 62 is reached, by the range that leaves out only the first and the last address. */
  lemma SixtyTwoBlocksNeeded()
    ensures |Greedy(1, MAX_32 - 1)| == 62
  {
    RisingExact(0);
  }

  /** The bit counting of the loop body computes the greedy exponent. */
  lemma WordsGiveGreedyBits(start: u32, end: u32, fitBits: int)
    requires start <= end && fitBits == 63 - LeadingZeros64(end - start + 1)
    ensures GreedyBits(start, end) == if fitBits < TrailingZeros32(start) then fitBits else TrailingZeros32(start)
    ensures start + Pow2(GreedyBits(start, end)) <= 2 * TWO_32
    ensures TrailingZeros32(0) == 32
  {
    BitLenBounds(end - start + 1);
    PowersOfTwo();
    Pow2Monotone(GreedyBits(start, end), 32);
  }

  lemma PrintNone()
    ensures PrintAll([]) == []
  {
  }

  lemma PrintAppend(bs: seq<Block>, b: Block)
    requires forall i :: 0 <= i < |bs| ==> bs[i].bits <= 32
    requires b.bits <= 32
    ensures PrintAll(bs + [b]) == PrintAll(bs) + [IpString(b.base) + "/" + Decimal(32 - b.bits)]
  {
  }

  /** The exponent that the body of the loop computes with the bit counting functions. */
  method LargestBlock(start: u32, end: u32) returns (maxSize: nat)
    requires start <= end
    ensures maxSize == GreedyBits(start, end)
    ensures maxSize <= 32 && start + Pow2(maxSize) <= 2 * TWO_32
  {
    maxSize := 32;
    if start != 0 {
      maxSize := TrailingZeros32(start);
    }
    var remaining: u64 := end - start + 1;
    var fitBits: int := 63 - LeadingZeros64(remaining);
    WordsGiveGreedyBits(start, end, fitBits);
    hide GreedyBits, Pow2, BitLen64, LeadingZeros64;
    if fitBits < maxSize {
      maxSize := fitBits;
    }
  }

  /** rangeToCIDRs: prints the greedy blocks of start .. end, and nothing when start is past end. */
  method RangeToCIDRs(first: u32, end: u32) returns (out: seq<string>)
    ensures out == PrintAll(Greedy(first, end))
  {
    hide Greedy, GreedyBits, Pow2, BitLen64, LeadingZeros64, TrailingZeros32, PrintAll, IpString, Decimal;
    out := [];
    ghost var done: seq<Block> := [];
    PrintNone();
    var start: u32 := first;
    if start > end {
      GreedyDone(start, end);
    }
    while start <= end
      invariant forall i :: 0 <= i < |done| ==> done[i].bits <= 32
      invariant out == PrintAll(done)
      invariant Greedy(first, end) == done + Greedy(start, end)
      invariant start > end ==> Greedy(start, end) == []
      decreases end - start
    {
      var maxSize := LargestBlock(start, end);
      GreedyUnfold(start, end, done);
      var prefix := 32 - maxSize;
      var mask := Itoa(prefix);
      out := out + [IpString(start) + "/" + mask];
      PrintAppend(done, Block(start, maxSize));
      done := done + [Block(start, maxSize)];
      var next: u64 := start + Pow2(maxSize);
      if next > MAX_32 {
        break;
      }
      start := next;
      if start > end {
        GreedyDone(start, end);
      }
    }
    assert Greedy(first, end) == done;
  }
}

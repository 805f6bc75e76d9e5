/** The split-tunnel list of the program, for its embedded text and its private list. */
module SplitTunnel {
  import opened Words
  import opened Text
  import opened Blocks
  import opened Cidr
  import opened Merge
  import opened Routing
  import opened Tunnel

  /** The split-tunnel list: an entry names an address exactly when no line of either list does. */
  method SplitAllowed(ruCIDRs: string, privateCIDRs: seq<string>) returns (s: string)
    ensures IsAllowedList(s, Split(ruCIDRs, "\n") + privateCIDRs)
    ensures forall a: u32 ::
              Names(Split(s, ", "), a) <==> !Names(Split(ruCIDRs, "\n"), a) && !Names(privateCIDRs, a)
  {
    ghost var lines := Split(ruCIDRs, "\n");
    var excluded := ExcludedRanges(ruCIDRs, privateCIDRs);
    var cidrs := ComputeComplement(excluded);
    hide Split, Names, Covered;
    SameFree(excluded, lines, privateCIDRs);
    MergedIsDisjoint(excluded);
    ComplementIsCanonical(excluded);
    CanonicalSameSet(ComplementBlocks(excluded, 0), Free(excluded), NotExcluded(lines + privateCIDRs));
    s := Join(cidrs, ", ");
    assert IsAllowedList(s, lines + privateCIDRs);
    AllowedNames(s, lines, privateCIDRs);
  }

  lemma SameFree(excluded: seq<Range>, some: seq<string>, others: seq<string>)
    requires forall a: u32 :: Covered(excluded, a) <==> Names(some, a) || Names(others, a)
    ensures forall a: int :: a in Free(excluded) <==> a in NotExcluded(some + others)
  {
    forall a: u32 ensures Names(some + others, a) <==> Names(some, a) || Names(others, a) {
      NamesEither(some, others, a);
    }
    hide Names, Covered;
  }

  lemma AllowedNames(s: string, some: seq<string>, others: seq<string>)
    requires IsAllowedList(s, some + others)
    ensures forall a: u32 :: Names(Split(s, ", "), a) <==> !Names(some, a) && !Names(others, a)
  {
    hide IsAllowedList, Names;
    forall a: u32 ensures Names(Split(s, ", "), a) <==> !Names(some, a) && !Names(others, a) {
      TunnelledIffNotExcluded(s, some + others, a);
      NamesEither(some, others, a);
    }
  }

  // The two lists of the program

  /** The fields of a dotted address, as numerals. */
  lemma DottedText(v: u32, a: string, b: string, c: string, d: string)
    requires Decimal(v / 0x100_0000) == a && Decimal(v / 0x1_0000 % 0x100) == b
    requires Decimal(v / 0x100 % 0x100) == c && Decimal(v % 0x100) == d
    ensures IpString(v) == a + "." + b + "." + c + "." + d
  {
    hide Decimal;
    var f := [a, b, c, d];
    assert Octets(v) == f;
    assert f[1..] == [b, c, d] && [b, c, d][1..] == [c, d] && [c, d][1..] == [d];
    hide Octets;
    assert Join([c, d], ".") == c + "." + d;
    assert Join([b, c, d], ".") == b + "." + (c + "." + d);
    assert Join(f, ".") == a + "." + (b + "." + (c + "." + d));
  }

  /** A line in dotted notation names the addresses from its network on, as many as the length leaves. */
  lemma LineNames(line: string, v: u32, ones: nat, x: u32)
    requires ones <= 32 && v % Pow2(32 - ones) == 0 && line == IpString(v) + "/" + Decimal(ones)
    ensures Names([line], x) <==> v <= x < v + Pow2(32 - ones)
  {
    hide IpString, Decimal, Pow2, Names, LineAdds;
    var block := Block(v, 32 - ones);
    LowClearIsMultiple(v, 32 - ones);
    BlockRangePrinted(block);
    SingleLine(line);
    CoveredIffExcluded([line], x);
    assert [BlockRange(block)][0] in [BlockRange(block)];
  }

  lemma SingleLine(line: string)
    ensures LineRanges([line]) == LineAdds(line)
  {
    hide LineAdds;
    assert [line][..0] == [];
  }

  /** Outside split mode every address is tunnelled. */
  lemma FullNamesAll(x: u32)
    ensures Names(Split(FULL_ALLOWED_IPS, ", "), x)
  {
    hide Names, Split, Decimal, IpString, Pow2;
    SmallNumerals();
    SmallPowers();
    DottedText(0, "0", "0", "0", "0");
    LineNames("0.0.0.0/0", 0, 0, x);
    var entries := ["0.0.0.0/0", "::/0"];
    assert Join(entries, ", ") == "0.0.0.0/0" + ", " + Join(["::/0"], ", ") by {
      assert entries[1..] == ["::/0"];
    }
    assert "0.0.0.0/0" + ", " + "::/0" == FULL_ALLOWED_IPS;
    SplitJoin(entries, ", ");
    assert entries == ["0.0.0.0/0"] + ["::/0"];
    NamesEither(["0.0.0.0/0"], ["::/0"], x);
  }

  lemma NamesSome(lines: seq<string>, x: u32)
    ensures Names(lines, x) <==> exists i :: 0 <= i < |lines| && Names([lines[i]], x)
  {
    hide ParseCIDR, TrimSpace, Shr;
    if Names(lines, x) {
      var line, p :| line in lines && ParseCIDR(TrimSpace(line)) == Some(p)
                     && Shr(x, 32 - p.ones) == Shr(p.network, 32 - p.ones);
      var i :| 0 <= i < |lines| && lines[i] == line;
      assert line in [lines[i]];
      assert Names([lines[i]], x);
    }
    forall i | 0 <= i < |lines| && Names([lines[i]], x) ensures Names(lines, x) {
      assert lines[i] in lines;
    }
  }

  lemma TwoDigits(n: nat)
    requires 10 <= n < 100
    ensures Decimal(n) == [DigitChar(n / 10), DigitChar(n % 10)]
  {
    assert Decimal(n / 10) == [DigitChar(n / 10)];
  }

  lemma ThreeDigits(n: nat)
    requires 100 <= n < 1000
    ensures Decimal(n) == [DigitChar(n / 100), DigitChar(n / 10 % 10), DigitChar(n % 10)]
  {
    TwoDigits(n / 10);
  }

  lemma SmallNumerals()
    ensures Decimal(0) == "0" && Decimal(2) == "2" && Decimal(4) == "4" && Decimal(8) == "8"
    ensures Decimal(10) == "10" && Decimal(12) == "12" && Decimal(15) == "15" && Decimal(16) == "16"
    ensures Decimal(18) == "18" && Decimal(24) == "24" && Decimal(51) == "51" && Decimal(64) == "64"
  {
    assert Decimal(0) == "0" && Decimal(2) == "2" && Decimal(4) == "4" && Decimal(8) == "8";
    hide Decimal;
    TwoDigits(10);
    TwoDigits(12);
    TwoDigits(15);
    TwoDigits(16);
    TwoDigits(18);
    TwoDigits(24);
    TwoDigits(51);
    TwoDigits(64);
  }

  lemma LargeNumerals()
    ensures Decimal(100) == "100" && Decimal(113) == "113" && Decimal(127) == "127" && Decimal(168) == "168"
    ensures Decimal(169) == "169" && Decimal(172) == "172" && Decimal(192) == "192" && Decimal(198) == "198"
    ensures Decimal(203) == "203" && Decimal(224) == "224" && Decimal(240) == "240" && Decimal(254) == "254"
  {
    hide Decimal;
    NumeralsBelow170();
    NumeralsFrom170();
  }

  lemma NumeralsBelow170()
    ensures Decimal(100) == "100" && Decimal(113) == "113" && Decimal(127) == "127" && Decimal(168) == "168"
    ensures Decimal(169) == "169"
  {
    hide Decimal;
    ThreeDigits(100);
    ThreeDigits(113);
    ThreeDigits(127);
    ThreeDigits(168);
    ThreeDigits(169);
  }

  lemma NumeralsFrom170()
    ensures Decimal(172) == "172" && Decimal(192) == "192" && Decimal(198) == "198" && Decimal(203) == "203"
    ensures Decimal(224) == "224" && Decimal(240) == "240" && Decimal(254) == "254"
  {
    hide Decimal;
    ThreeDigits(172);
    ThreeDigits(192);
    ThreeDigits(198);
    ThreeDigits(203);
    ThreeDigits(224);
    ThreeDigits(240);
    ThreeDigits(254);
  }

  lemma SmallPowers()
    ensures Pow2(8) == 0x100 && Pow2(16) == 0x1_0000 && Pow2(17) == 0x2_0000 && Pow2(20) == 0x10_0000
    ensures Pow2(22) == 0x40_0000 && Pow2(24) == 0x100_0000 && Pow2(28) == 0x1000_0000 && Pow2(32) == TWO_32
  {
    assert Pow2(8) == 0x100;
    assert Pow2(16) == 0x1_0000;
    assert Pow2(24) == 0x100_0000;
  }

  lemma FirstPrivateLines(x: u32)
    ensures Names(["0.0.0.0/8"], x) <==> x / 0x100_0000 == 0
    ensures Names(["10.0.0.0/8"], x) <==> x / 0x100_0000 == 0xA
    ensures Names(["100.64.0.0/10"], x) <==> x / 0x40_0000 == 0x191
    ensures Names(["127.0.0.0/8"], x) <==> x / 0x100_0000 == 0x7F
    ensures Names(["169.254.0.0/16"], x) <==> x / 0x1_0000 == 0xA9FE
  {
    hide Names, Decimal, IpString, Pow2;
    SmallNumerals();
    LargeNumerals();
    SmallPowers();
    DottedText(0, "0", "0", "0", "0");
    LineNames("0.0.0.0/8", 0, 8, x);
    DottedText(0xA00_0000, "10", "0", "0", "0");
    LineNames("10.0.0.0/8", 0xA00_0000, 8, x);
    DottedText(0x6440_0000, "100", "64", "0", "0");
    LineNames("100.64.0.0/10", 0x6440_0000, 10, x);
    DottedText(0x7F00_0000, "127", "0", "0", "0");
    LineNames("127.0.0.0/8", 0x7F00_0000, 8, x);
    DottedText(0xA9FE_0000, "169", "254", "0", "0");
    LineNames("169.254.0.0/16", 0xA9FE_0000, 16, x);
  }

  lemma MiddlePrivateLines(x: u32)
    ensures Names(["172.16.0.0/12"], x) <==> x / 0x10_0000 == 0xAC1
    ensures Names(["192.168.0.0/16"], x) <==> x / 0x1_0000 == 0xC0A8
    ensures Names(["192.0.0.0/24"], x) <==> x / 0x100 == 0xC0_0000
    ensures Names(["192.0.2.0/24"], x) <==> x / 0x100 == 0xC0_0002
    ensures Names(["198.18.0.0/15"], x) <==> x / 0x2_0000 == 0x6309
  {
    hide Names, Decimal, IpString, Pow2;
    SmallNumerals();
    LargeNumerals();
    SmallPowers();
    DottedText(0xAC10_0000, "172", "16", "0", "0");
    LineNames("172.16.0.0/12", 0xAC10_0000, 12, x);
    DottedText(0xC0A8_0000, "192", "168", "0", "0");
    LineNames("192.168.0.0/16", 0xC0A8_0000, 16, x);
    DottedText(0xC000_0000, "192", "0", "0", "0");
    LineNames("192.0.0.0/24", 0xC000_0000, 24, x);
    DottedText(0xC000_0200, "192", "0", "2", "0");
    LineNames("192.0.2.0/24", 0xC000_0200, 24, x);
    DottedText(0xC612_0000, "198", "18", "0", "0");
    LineNames("198.18.0.0/15", 0xC612_0000, 15, x);
  }

  lemma LastPrivateLines(x: u32)
    ensures Names(["198.51.100.0/24"], x) <==> x / 0x100 == 0xC6_3364
    ensures Names(["203.0.113.0/24"], x) <==> x / 0x100 == 0xCB_0071
    ensures Names(["224.0.0.0/4"], x) <==> x / 0x1000_0000 == 0xE
    ensures Names(["240.0.0.0/4"], x) <==> x / 0x1000_0000 == 0xF
  {
    hide Names, Decimal, IpString, Pow2;
    SmallNumerals();
    LargeNumerals();
    SmallPowers();
    DottedText(0xC633_6400, "198", "51", "100", "0");
    LineNames("198.51.100.0/24", 0xC633_6400, 24, x);
    DottedText(0xCB00_7100, "203", "0", "113", "0");
    LineNames("203.0.113.0/24", 0xCB00_7100, 24, x);
    DottedText(0xE000_0000, "224", "0", "0", "0");
    LineNames("224.0.0.0/4", 0xE000_0000, 4, x);
    DottedText(0xF000_0000, "240", "0", "0", "0");
    LineNames("240.0.0.0/4", 0xF000_0000, 4, x);
  }

  /** The private list names the private, shared, local, test, multicast and reserved networks, and nothing else. */
  lemma PrivateNetworks(x: u32)
    ensures Names(PRIVATE_CIDRS, x)
            <==> || x / 0x100_0000 == 0 || x / 0x100_0000 == 0xA || x / 0x40_0000 == 0x191
                 || x / 0x100_0000 == 0x7F || x / 0x1_0000 == 0xA9FE || x / 0x10_0000 == 0xAC1
                 || x / 0x1_0000 == 0xC0A8 || x / 0x100 == 0xC0_0000 || x / 0x100 == 0xC0_0002
                 || x / 0x2_0000 == 0x6309 || x / 0x100 == 0xC6_3364 || x / 0x100 == 0xCB_0071
                 || x / 0x1000_0000 == 0xE || x / 0x1000_0000 == 0xF
  {
    hide Names;
    FirstPrivateLines(x);
    MiddlePrivateLines(x);
    LastPrivateLines(x);
    NamesOneOf14(PRIVATE_CIDRS, x);
  }

  lemma NamesOneOf14(p: seq<string>, x: u32)
    requires |p| == 14
    ensures Names(p, x)
            <==> || Names([p[0]], x) || Names([p[1]], x) || Names([p[2]], x) || Names([p[3]], x) || Names([p[4]], x)
                 || Names([p[5]], x) || Names([p[6]], x) || Names([p[7]], x) || Names([p[8]], x) || Names([p[9]], x)
                 || Names([p[10]], x) || Names([p[11]], x) || Names([p[12]], x) || Names([p[13]], x)
  {
    hide Names;
    NamesSome(p, x);
  }

  /** The package state behind allowedIPsFor: the split list is computed at most once. */
  class SplitCache {
    const ruCIDRs: string
    var done: bool
    var splitAllowed: string

    ghost predicate Valid()
      reads this
    {
      done ==> IsAllowedList(splitAllowed, Split(ruCIDRs, "\n") + PRIVATE_CIDRS)
    }

    constructor (ruCIDRs: string)
      ensures Valid() && this.ruCIDRs == ruCIDRs
    {
      this.ruCIDRs := ruCIDRs;
      done := false;
      splitAllowed := "";
    }

    /**
     * allowedIPsFor: in split mode an entry names an address exactly when no line of the embedded text and no
     * private network does; in every other mode the entries name all addresses.
     */
    method AllowedIPsFor(mode: RoutingMode) returns (s: string)
      requires Valid()
      modifies this
      ensures Valid()
      ensures old(done) ==> done && splitAllowed == old(splitAllowed)
      ensures if mode == SplitRU then done && s == splitAllowed else s == FULL_ALLOWED_IPS
      ensures forall x: u32 ::
                Names(Split(s, ", "), x)
                <==> mode != SplitRU || (!Names(Split(ruCIDRs, "\n"), x) && !Names(PRIVATE_CIDRS, x))
    {
      hide Names, Split, IsAllowedList;
      if mode != SplitRU {
        forall x: u32 ensures Names(Split(FULL_ALLOWED_IPS, ", "), x) {
          FullNamesAll(x);
        }
        return FULL_ALLOWED_IPS;
      }
      if !done {
        splitAllowed := SplitAllowed(ruCIDRs, PRIVATE_CIDRS);
        done := true;
      }
      AllowedNames(splitAllowed, Split(ruCIDRs, "\n"), PRIVATE_CIDRS);
      return splitAllowed;
    }
  }

  // Feeding the list back in

  /** The entries of a printed list, one to a line, read as an embedded text: they are the exclusion lines. */
  lemma EntriesAsLines(s: string, lines: seq<string>)
    requires IsAllowedList(s, lines)
    ensures Split(Join(Entries(s), "\n"), "\n") == Entries(s)
  {
    var bs :| Canonical(bs, NotExcluded(lines)) && s == Join(PrintAll(bs), ", ");
    EntriesOfPrinted(bs);
    forall p | p in Entries(s) ensures '\n' !in p {
      if bs != [] {
        var i :| 0 <= i < |bs| && p == PrintBlock(bs[i]);
        PrintedWithoutSeparators(bs[i]);
      }
    }
    SplitJoin(Entries(s), "\n");
  }

  /** Computing the list for the entries of a list that was computed before. */
  method SplitAgain(s: string, ghost lines: seq<string>) returns (t: string)
    requires IsAllowedList(s, lines)
    ensures IsAllowedList(t, Entries(s))
  {
    EntriesAsLines(s, lines);
    hide IsAllowedList, Entries;
    t := SplitAllowed(Join(Entries(s), "\n"), []);
    assert Entries(s) + [] == Entries(s);
  }

  /**
   * Computing the list, then the list for its entries, then the one for those: the second one names exactly
   * what was excluded first, and the third one is the first again.
   */
  method SplitThrice(ruCIDRs: string, privateCIDRs: seq<string>) returns (s: string, t: string, u: string)
    ensures u == s
    ensures forall x: u32 ::
              Names(Split(s, ", "), x) <==> !Names(Split(ruCIDRs, "\n"), x) && !Names(privateCIDRs, x)
    ensures forall x: u32 ::
              Names(Split(t, ", "), x) <==> Names(Split(ruCIDRs, "\n"), x) || Names(privateCIDRs, x)
  {
    hide IsAllowedList, Names, Split;
    ghost var lines := Split(ruCIDRs, "\n") + privateCIDRs;
    s := SplitAllowed(ruCIDRs, privateCIDRs);
    t := SplitAgain(s, lines);
    u := SplitAgain(t, Entries(s));
    forall x: u32 ensures Names(Entries(t), x) <==> Names(Split(ruCIDRs, "\n"), x) || Names(privateCIDRs, x) {
      ComplementTwice(s, lines, t, u, x);
      NamesEither(Split(ruCIDRs, "\n"), privateCIDRs, x);
    }
    ComplementTwice(s, lines, t, u, 0);
  }
}

/** Handing out WireGuard client addresses. */
module Allocator {
  import opened Words
  import opened Text
  import opened Blocks
  import opened Cidr

  datatype AllocError = BadSubnet | SubnetExhausted

  datatype Allocation = Allocated(address: string) | Failed(error: AllocError)

  /** The number of addresses in a subnet, before any wrapping. */
  function SubnetSize(p: Prefix): nat
    requires ValidPrefix(p)
  {
    Pow2(32 - p.ones)
  }

  /** Host addresses lie past the network and gateway addresses and before the broadcast address. */
  predicate IsHost(p: Prefix, a: int)
    requires ValidPrefix(p)
  {
    p.network + 2 <= a < p.network + SubnetSize(p) - 1
  }

  /** The number of host addresses of a subnet. */
  function Capacity(p: Prefix): nat
    requires ValidPrefix(p)
  {
    if SubnetSize(p) > 3 then SubnetSize(p) - 3 else 0
  }

  /** The address that an entry of the used list names, with or without a mask; None for junk. */
  function UsedAddress(entry: string): Option<u32> {
    var i := Index(entry, "/");
    ParseIPv4(TrimSpace(if i >= 0 then entry[..i] else entry))
  }

  /** An entry names an address exactly when what stands before its first slash, trimmed, prints it. */
  lemma UsedExactly(entry: string, a: u32)
    ensures UsedAddress(entry) == Some(a)
            <==> exists host :: && host <= entry && '/' !in host && (host == entry || entry[|host|] == '/')
                                && TrimSpace(host) == IpString(a)
  {
    hide ParseIPv4, IpString, TrimSpace, Index;
    IndexOfChar(entry, '/');
    var i := Index(entry, "/");
    var cut := if i >= 0 then entry[..i] else entry;
    ParsedIffPrinted(TrimSpace(cut), a);
    assert cut <= entry && (cut == entry || entry[|cut|] == '/');
    forall host | host <= entry && '/' !in host && (host == entry || entry[|host|] == '/') ensures host == cut {
    }
  }

  ghost predicate IsTaken(used: seq<string>, a: u32) {
    exists u :: u in used && UsedAddress(u) == Some(a)
  }

  /** The least host address that is not taken, searching from a. */
  ghost function LeastFree(p: Prefix, taken: iset<int>, a: int): Option<u32>
    requires ValidPrefix(p) && a >= p.network + 2
    decreases p.network + SubnetSize(p) - a
  {
    BlockFits(PrefixBlock(p));
    if !IsHost(p, a) then None
    else if a !in taken then Some(a)
    else LeastFree(p, taken, a + 1)
  }

  /** The address given out, if any, for a set of taken addresses. */
  ghost function Choice(p: Prefix, taken: iset<int>): Option<u32>
    requires ValidPrefix(p)
  {
    LeastFree(p, taken, p.network + 2)
  }

  lemma {:induction false} LeastFreeMeans(p: Prefix, taken: iset<int>, a: int)
    requires ValidPrefix(p) && a >= p.network + 2
    ensures var r := LeastFree(p, taken, a);
            && (r.None? ==> forall b :: IsHost(p, b) && a <= b ==> b in taken)
            && (r.Some? ==> IsHost(p, r.value) && a <= r.value && r.value !in taken
                            && forall b :: a <= b < r.value ==> b in taken)
    decreases p.network + SubnetSize(p) - a
  {
    if IsHost(p, a) && a in taken {
      LeastFreeMeans(p, taken, a + 1);
    }
  }

  /** The choice is the least free host address, and there is none exactly when all hosts are taken. */
  lemma ChoiceIsLeast(p: Prefix, taken: iset<int>)
    requires ValidPrefix(p)
    ensures var r := Choice(p, taken);
            && (r.None? <==> forall b :: IsHost(p, b) ==> b in taken)
            && (r.Some? ==> IsHost(p, r.value) && r.value !in taken
                            && forall b :: IsHost(p, b) && b !in taken ==> r.value <= b)
  {
    LeastFreeMeans(p, taken, p.network + 2);
  }

  /** Only taken host addresses matter. */
  lemma ChoiceIgnoresOthers(p: Prefix, taken: iset<int>, taken': iset<int>)
    requires ValidPrefix(p)
    requires forall b :: IsHost(p, b) ==> (b in taken <==> b in taken')
    ensures Choice(p, taken) == Choice(p, taken')
  {
    ChoiceIsLeast(p, taken);
    ChoiceIsLeast(p, taken');
  }

  ghost function HostsBelow(p: Prefix, last: int): (s: set<int>)
    requires ValidPrefix(p)
    ensures forall b :: b in s <==> p.network + 2 <= b < last
    ensures |s| == if last > p.network + 2 then last - p.network - 2 else 0
    decreases last - p.network
  {
    if last <= p.network + 2 then {} else HostsBelow(p, last - 1) + {last - 1}
  }

  /** While fewer hosts are taken than the subnet has, an address is given out. */
  lemma SucceedsBelowCapacity(p: Prefix, hosts: set<int>, taken: iset<int>)
    requires ValidPrefix(p)
    requires forall b :: b in hosts <==> b in taken && IsHost(p, b)
    requires |hosts| < Capacity(p)
    ensures Choice(p, taken).Some?
  {
    ChoiceIsLeast(p, taken);
    var all := HostsBelow(p, p.network + SubnetSize(p) - 1);
    if Choice(p, taken).None? {
      SubsetCount(all, hosts);
    }
  }

  /** A set of distinct host addresses is never larger than the capacity. */
  lemma HostsWithinCapacity(p: Prefix, hosts: set<int>)
    requires ValidPrefix(p)
    requires forall b :: b in hosts ==> IsHost(p, b)
    ensures |hosts| <= Capacity(p)
  {
    SubsetCount(hosts, HostsBelow(p, p.network + SubnetSize(p) - 1));
  }

  /** When exactly the first n hosts are taken, the next one is chosen, as long as there is one. */
  lemma NextAfterInterval(p: Prefix, n: nat)
    requires ValidPrefix(p)
    ensures p.network + 2 + n < TWO_32 || n >= Capacity(p)
    ensures Choice(p, Interval(p.network + 2, p.network + 1 + n))
            == if n < Capacity(p) then Some(p.network + 2 + n) else None
  {
    BlockFits(PrefixBlock(p));
    ChoiceIsLeast(p, Interval(p.network + 2, p.network + 1 + n));
    if n < Capacity(p) {
      assert IsHost(p, p.network + 2 + n);
    }
  }

  /** The used list after n calls of the allocator that started with nothing used. */
  ghost function UsedAfter(p: Prefix, n: nat): seq<string>
    requires ValidPrefix(p)
  {
    if n == 0 then []
    else
      var used := UsedAfter(p, n - 1);
      match Choice(p, TakenSet(used))
      case None => used
      case Some(a) => used + [IpString(a) + "/32"]
  }

  /** Starting empty, call number n gives offset n + 2, and exactly Capacity calls succeed. */
  lemma {:induction false} SuccessiveAllocations(p: Prefix, n: nat)
    requires ValidPrefix(p)
    ensures |UsedAfter(p, n)| == if n <= Capacity(p) then n else Capacity(p)
    ensures forall a: u32 :: a in TakenSet(UsedAfter(p, n))
                             <==> p.network + 2 <= a < p.network + 2 + |UsedAfter(p, n)|
    ensures Choice(p, TakenSet(UsedAfter(p, n)))
            == if n < Capacity(p) then Some(p.network + 2 + n) else None
  {
    hide IpString, TakenSet;
    if n == 0 {
      NoneTaken();
    } else {
      SuccessiveAllocations(p, n - 1);
      if n <= Capacity(p) {
        AllocatedIsTaken(UsedAfter(p, n - 1), p.network + 1 + n);
      }
    }
    var count := |UsedAfter(p, n)|;
    BlockFits(PrefixBlock(p));
    ChoiceIgnoresOthers(p, TakenSet(UsedAfter(p, n)), Interval(p.network + 2, p.network + 1 + count));
    NextAfterInterval(p, count);
  }

  lemma NoneTaken()
    ensures forall a: u32 :: a !in TakenSet([])
  {
  }

  ghost function Elements(s: set<u32>): iset<int> {
    iset a: u32 | a in s
  }

  ghost function TakenSet(used: seq<string>): iset<int> {
    iset a: u32 | IsTaken(used, a)
  }

  lemma UsedGrows(used: seq<string>, i: nat, a: u32)
    requires i < |used|
    ensures IsTaken(used[..i + 1], a) <==> IsTaken(used[..i], a) || UsedAddress(used[i]) == Some(a)
  {
    assert used[..i + 1] == used[..i] + [used[i]];
  }

  /** The table of taken addresses that the first loop builds; entries that do not parse are ignored. */
  method TakenAddresses(used: seq<string>) returns (taken: set<u32>)
    ensures forall a: u32 :: a in taken <==> IsTaken(used, a)
  {
    hide UsedAddress;
    taken := {};
    for i := 0 to |used|
      invariant forall a: u32 :: a in taken <==> IsTaken(used[..i], a)
    {
      var ip := ReadUsed(used[i]);
      if ip.Some? {
        taken := taken + {ip.value};
      }
      forall a: u32 ensures a in taken <==> IsTaken(used[..i + 1], a) {
        UsedGrows(used, i, a);
      }
    }
    assert used[..|used|] == used;
  }

  method ReadUsed(entry: string) returns (ip: Option<u32>)
    ensures ip == UsedAddress(entry)
  {
    var host := entry;
    var i := Index(host, "/");
    if i >= 0 {
      host := host[..i];
    }
    ip := ParseIPv4(TrimSpace(host));
  }

  lemma ChoiceStart(p: Prefix, taken: iset<int>)
    requires ValidPrefix(p)
    ensures Choice(p, taken) == LeastFree(p, taken, p.network + 2)
  {
  }

  /** For a /0 subnet the size wraps to 0, and one less wraps back to the last offset. */
  lemma WrappedLast(p: Prefix)
    requires ValidPrefix(p)
    ensures Wrap32(Shl32(1, 32 - p.ones) - 1) == SubnetSize(p) - 1
  {
    assert Pow2(0) == 1;
    hide Pow2, Shl32, LowClear, Wrap32;
    HostCount(32 - p.ones);
    ShiftedPower(0, 32 - p.ones);
    LessOne(Pow2(32 - p.ones), Shl32(1, 32 - p.ones));
  }

  lemma LessOne(size: nat, wrapped: u32)
    requires 1 <= size <= TWO_32 && wrapped == if size == TWO_32 then 0 else size
    ensures Wrap32(wrapped - 1) == size - 1
  {
  }

  /** The loop over offsets, with the wrapping size of the source. */
  method FirstFree(p: Prefix, taken: set<u32>) returns (free: Option<u32>)
    requires ValidPrefix(p)
    ensures free == Choice(p, Elements(taken))
  {
    BlockFits(PrefixBlock(p));
    WrappedLast(p);
    hide Pow2, Shl32, LowClear, Choice;
    var size: u32 := Shl32(1, 32 - p.ones);
    var last: u32 := Wrap32(size - 1);
    ghost var all := Elements(taken);
    var offset: int := 2;
    ChoiceStart(p, all);
    while offset < last
      invariant 2 <= offset
      invariant Choice(p, all) == LeastFree(p, all, p.network + offset)
      decreases last - offset
    {
      var candidate: u32 := p.network + offset;
      if candidate !in taken {
        return Some(candidate);
      }
      offset := offset + 1;
    }
    return None;
  }

  lemma ChosenHost(p: Prefix, used: seq<string>)
    requires ValidPrefix(p)
    ensures match Choice(p, TakenSet(used))
            case None => forall b: u32 :: p.network + 2 <= b <= p.network + Pow2(32 - p.ones) - 2 ==> IsTaken(used, b)
            case Some(a) =>
              && p.network + 2 <= a <= p.network + Pow2(32 - p.ones) - 2 && !IsTaken(used, a)
              && forall b: u32 :: p.network + 2 <= b < a ==> IsTaken(used, b)
  {
    hide IsTaken, Choice;
    ChoiceIsLeast(p, TakenSet(used));
    var last := match Choice(p, TakenSet(used)) case None => p.network + Pow2(32 - p.ones) - 1 case Some(a) => a;
    forall b: u32 | p.network + 2 <= b < last ensures IsTaken(used, b) {
      assert IsHost(p, b);
    }
  }

  /**
   * allocateWireGuardIP: the least host address of the subnet that the used list does not name,
   * printed with a /32 mask; it fails exactly when every host address is named. Hosts are the offsets from 2
   * up to two below the size of the subnet.
   */
  method AllocateWireGuardIP(subnet: string, used: seq<string>) returns (r: Allocation)
    ensures ParseCIDR(subnet).None? <==> r == Failed(BadSubnet)
    ensures ParseCIDR(subnet).Some? ==>
              r == match Choice(ParseCIDR(subnet).value, TakenSet(used))
                   case None => Failed(SubnetExhausted)
                   case Some(a) => Allocated(IpString(a) + "/32")
    ensures r.Allocated? ==>
              && ParseCIDR(subnet).Some?
              && var p := ParseCIDR(subnet).value;
                 exists a: u32 ::
                   && r.address == IpString(a) + "/32" && p.network + 2 <= a <= p.network + Pow2(32 - p.ones) - 2
                   && !IsTaken(used, a) && forall b: u32 :: p.network + 2 <= b < a ==> IsTaken(used, b)
    ensures r == Failed(SubnetExhausted) ==>
              && ParseCIDR(subnet).Some?
              && var p := ParseCIDR(subnet).value;
                 forall b: u32 :: p.network + 2 <= b <= p.network + Pow2(32 - p.ones) - 2 ==> IsTaken(used, b)
  {
    hide ParseCIDR, IpString, IsTaken, Choice;
    var ipNet := ParseCIDR(subnet);
    if ipNet.None? {
      return Failed(BadSubnet);
    }
    var taken := TakenAddresses(used);
    var candidate := FirstFree(ipNet.value, taken);
    ChoiceIgnoresOthers(ipNet.value, Elements(taken), TakenSet(used));
    ChosenHost(ipNet.value, used);
    match candidate {
      case None => return Failed(SubnetExhausted);
      case Some(a) => return Allocated(IpString(a) + "/32");
    }
  }

  /** An address given out, with its mask, reads back as taken: it is not given out twice. */
  lemma AllocatedIsTaken(used: seq<string>, a: u32)
    ensures TakenSet(used + [IpString(a) + "/32"]) == TakenSet(used) + iset{a}
    ensures TakenSet(used + [IpString(a)]) == TakenSet(used) + iset{a}
  {
    IpStringShape(a);
    OctetsReadBack(a);
    UsedReadsBack(IpString(a), a);
    TakenGrows(used, IpString(a) + "/32", a);
    TakenGrows(used, IpString(a), a);
  }

  lemma UsedReadsBack(ip: string, a: u32)
    requires DottedDigits(ip) && ParseIPv4(ip) == Some(a) && IsDigit(ip[|ip| - 1])
    ensures UsedAddress(ip) == Some(a) && UsedAddress(ip + "/32") == Some(a)
  {
    assert TrimSpace(ip) == ip;
    IndexAbsent(ip, "/");
    IndexAfter(ip, "/", "32");
    assert ip + "/" + "32" == ip + "/32";
    assert (ip + "/32")[..|ip|] == ip;
  }

  lemma TakenGrows(used: seq<string>, entry: string, a: u32)
    requires UsedAddress(entry) == Some(a)
    ensures TakenSet(used + [entry]) == TakenSet(used) + iset{a}
  {
    hide UsedAddress;
    var more := used + [entry];
    assert more[|used|] == entry && more[..|used|] == used && more[..|used| + 1] == more;
    forall b: u32 ensures IsTaken(more, b) <==> IsTaken(used, b) || a == b {
      UsedGrows(more, |used|, b);
    }
  }
}

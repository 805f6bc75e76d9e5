/** IPv4 CIDR notation (section 3.1 of RFC 4632): printing, parsing, and the ranges it stands for. */
module Cidr {
  import opened Words
  import opened Text
  import opened Blocks

  /** The addresses start .. end, both included. */
  datatype Range = Range(start: u32, end: u32)

  /** A parsed prefix; the host bits of network are cleared. */
  datatype Prefix = Prefix(network: u32, ones: nat)

  predicate ValidPrefix(p: Prefix) {
    p.ones <= 32 && LowClear(p.network, 32 - p.ones)
  }

  predicate InRange(r: Range, a: int) {
    r.start <= a <= r.end
  }

  /** net.IP.String for a 4-byte address. */
  function IpString(v: u32): string {
    Join(Octets(v), ".")
  }

  function Octets(v: u32): (fields: seq<string>)
    ensures |fields| == 4
  {
    [Decimal(v / 0x100_0000), Decimal(v / 0x1_0000 % 0x100), Decimal(v / 0x100 % 0x100), Decimal(v % 0x100)]
  }

  /** One field of a dotted address: digits up to 255 without a leading zero. */
  predicate IsOctet(f: string) {
    && f != "" && AllDigits(f)
    && (|f| > 1 ==> f[0] != '0')
    && NumeralValue(f) <= 255
  }

  predicate FourOctets(f: seq<string>) {
    |f| == 4 && IsOctet(f[0]) && IsOctet(f[1]) && IsOctet(f[2]) && IsOctet(f[3])
  }

  function FieldSum(f: seq<string>): u32
    requires FourOctets(f)
  {
    NumeralValue(f[0]) * 0x100_0000 + NumeralValue(f[1]) * 0x1_0000 + NumeralValue(f[2]) * 0x100 + NumeralValue(f[3])
  }

  /** net.ParseIP restricted to dotted IPv4 addresses. */
  function ParseIPv4(s: string): Option<u32> {
    var f := Split(s, ".");
    if FourOctets(f) then Some(FieldSum(f)) else None
  }

  /** The prefix with the host bits of the address cleared. */
  function Masked(ip: u32, ones: nat): (p: Prefix)
    requires ones <= 32
    ensures ValidPrefix(p)
    ensures LowClear(ip, 32 - ones) ==> p == Prefix(ip, ones)
  {
    ClearedLow(ip, 32 - ones);
    Prefix(ClearLow(ip, 32 - ones), ones)
  }

  /** A mask: digits denoting at most 32; unlike an octet it may have leading zeros. */
  predicate IsMask(mask: string) {
    mask != "" && AllDigits(mask) && NumeralValue(mask) <= 32
  }

  /** net.ParseCIDR restricted to IPv4. */
  function ParseCIDR(s: string): (p: Option<Prefix>)
    ensures p.Some? ==> ValidPrefix(p.value)
  {
    var i := Index(s, "/");
    if i < 0 then None else ParsePrefix(s[..i], s[i + 1..])
  }

  function ParsePrefix(addr: string, mask: string): (p: Option<Prefix>)
    ensures p.Some? ==> ValidPrefix(p.value)
  {
    match ParseIPv4(addr)
    case None => None
    case Some(ip) => if IsMask(mask) then Some(Masked(ip, NumeralValue(mask))) else None
  }

  /** The addresses of a prefix, in the uint32 arithmetic of the source. */
  function PrefixRange(p: Prefix): Range
    requires ValidPrefix(p)
  {
    var size := Shl32(1, 32 - p.ones);
    Range(p.network, Wrap32(Wrap32(p.network + size) - 1))
  }

  /** What one line of an exclusion list contributes, if anything. */
  function LineRange(line: string): Option<Range> {
    match ParseCIDR(TrimSpace(line))
    case None => None
    case Some(p) => Some(PrefixRange(p))
  }

  /** The block that a prefix denotes. */
  function PrefixBlock(p: Prefix): (b: Block)
    requires ValidPrefix(p)
    ensures Aligned(b)
  {
    Block(p.network, 32 - p.ones)
  }

  function PrintBlock(b: Block): string
    requires b.bits <= 32
  {
    IpString(b.base) + "/" + Decimal(32 - b.bits)
  }

  function PrintAll(bs: seq<Block>): (out: seq<string>)
    requires forall i :: 0 <= i < |bs| ==> bs[i].bits <= 32
    ensures |out| == |bs|
    ensures forall i :: 0 <= i < |bs| ==> out[i] == PrintBlock(bs[i])
  {
    seq(|bs|, i requires 0 <= i < |bs| => PrintBlock(bs[i]))
  }

  /** The wrapping sum gives the last address of the prefix, for /0 and at the top of the space too. */
  lemma PrefixRangeIsBlock(p: Prefix)
    requires ValidPrefix(p)
    ensures PrefixRange(p).start == p.network
    ensures PrefixRange(p).end == p.network + Pow2(32 - p.ones) - 1
  {
    hide Shl32, LowClear, Wrap32;
    assert Pow2(0) == 1;
    hide Pow2;
    ShiftedPower(0, 32 - p.ones);
    BlockFits(PrefixBlock(p));
    HostCount(32 - p.ones);
    WrappedEnd(p.network, Pow2(32 - p.ones), Shl32(1, 32 - p.ones));
  }

  lemma HostCount(bits: nat)
    requires bits <= 32
    ensures bits == 32 <==> Pow2(bits) == TWO_32
  {
    PowersOfTwo();
    if bits < 32 {
      WordPower(bits);
    }
  }

  lemma WrappedEnd(start: u32, size: nat, wrapped: u32)
    requires size >= 1 && start + size <= TWO_32
    requires wrapped == if size == TWO_32 then 0 else size
    ensures Wrap32(Wrap32(start + wrapped) - 1) == start + size - 1
  {
  }

  /** An address lies in the range of a prefix exactly when it has the same leading bits. */
  lemma PrefixMembership(p: Prefix, a: u32)
    requires ValidPrefix(p)
    ensures InRange(PrefixRange(p), a) <==> Shr(a, 32 - p.ones) == Shr(p.network, 32 - p.ones)
  {
    PrefixRangeIsBlock(p);
    SameLeadingBits(p.network, a, 32 - p.ones);
  }

  // Reading back what was printed

  lemma DecimalOctet(n: nat)
    requires n <= 255
    ensures IsOctet(Decimal(n)) && NumeralValue(Decimal(n)) == n
  {
    DecimalValue(n);
  }

  lemma JoinedFields(f: seq<string>)
    requires FourOctets(f)
    ensures ParseIPv4(Join(f, ".")) == Some(FieldSum(f))
  {
    DigitsOnly(f, '.');
    SplitJoin(f, ".");
  }

  lemma OctetValues(v: u32)
    ensures var f := Octets(v);
            && FourOctets(f)
            && NumeralValue(f[0]) == v / 0x100_0000 && NumeralValue(f[1]) == v / 0x1_0000 % 0x100
            && NumeralValue(f[2]) == v / 0x100 % 0x100 && NumeralValue(f[3]) == v % 0x100
  {
    DecimalOctet(v / 0x100_0000);
    DecimalOctet(v / 0x1_0000 % 0x100);
    DecimalOctet(v / 0x100 % 0x100);
    DecimalOctet(v % 0x100);
  }

  lemma OctetsReadBack(v: u32)
    ensures ParseIPv4(IpString(v)) == Some(v)
  {
    OctetValues(v);
    JoinedFields(Octets(v));
    OctetSum(v);
  }

  lemma OctetSum(v: u32)
    ensures v / 0x100_0000 * 0x100_0000 + v / 0x1_0000 % 0x100 * 0x1_0000 + v / 0x100 % 0x100 * 0x100 + v % 0x100 == v
  {
    var q1 := v / 0x100;
    var q2 := q1 / 0x100;
    var q3 := q2 / 0x100;
    assert v / 0x1_0000 == q2;
    assert v / 0x100_0000 == q3;
    assert v == 0x100 * q1 + v % 0x100 && q1 == 0x100 * q2 + q1 % 0x100 && q2 == 0x100 * q3 + q2 % 0x100;
  }

  lemma DigitsOfSum(a: nat, b: nat, c: nat, d: nat)
    requires a <= 255 && b <= 255 && c <= 255 && d <= 255
    ensures var v := a * 0x100_0000 + b * 0x1_0000 + c * 0x100 + d;
            v / 0x100_0000 == a && v / 0x1_0000 % 0x100 == b && v / 0x100 % 0x100 == c && v % 0x100 == d
  {
    var q1 := (a * 0x100 + b) * 0x100 + c;
    var v := q1 * 0x100 + d;
    LastByte(q1, d);
    LastByte(a * 0x100 + b, c);
    LastByte(a, b);
    assert v / 0x1_0000 == v / 0x100 / 0x100 && v / 0x100_0000 == v / 0x100 / 0x100 / 0x100;
  }

  lemma LastByte(q: nat, r: nat)
    requires r <= 255
    ensures (q * 0x100 + r) / 0x100 == q && (q * 0x100 + r) % 0x100 == r
  {
  }

  lemma OctetIsDecimal(f: string)
    requires IsOctet(f)
    ensures f == Decimal(NumeralValue(f)) && NumeralValue(f) <= 255
  {
    NumeralIsDecimal(f);
  }

  lemma OctetFields(f: seq<string>)
    requires FourOctets(f)
    ensures f == Octets(FieldSum(f))
  {
    hide NumeralValue, Decimal, IsOctet;
    OctetIsDecimal(f[0]);
    OctetIsDecimal(f[1]);
    OctetIsDecimal(f[2]);
    OctetIsDecimal(f[3]);
    DigitsOfSum(NumeralValue(f[0]), NumeralValue(f[1]), NumeralValue(f[2]), NumeralValue(f[3]));
  }

  /** The texts that parse as an address are exactly the printed ones. */
  lemma ParsedIffPrinted(s: string, v: u32)
    ensures ParseIPv4(s) == Some(v) <==> s == IpString(v)
  {
    hide FourOctets, FieldSum, Octets, Split, Join;
    if s == IpString(v) {
      OctetsReadBack(v);
    }
    if ParseIPv4(s) == Some(v) {
      JoinSplit(s, '.');
      OctetFields(Split(s, "."));
    }
  }

  lemma DigitsOnly(parts: seq<string>, c: char)
    requires forall p :: p in parts ==> AllDigits(p)
    requires !IsDigit(c)
    ensures forall p :: p in parts ==> c !in p
  {
  }

  /** Every character of a printed address is a digit or a dot, and the ends are digits. */
  lemma {:induction false} JoinCharacters(parts: seq<string>)
    requires parts != [] && forall i :: 0 <= i < |parts| ==> parts[i] != "" && AllDigits(parts[i])
    ensures var s := Join(parts, ".");
            && s != "" && IsDigit(s[0]) && IsDigit(s[|s| - 1])
            && forall i :: 0 <= i < |s| ==> IsDigit(s[i]) || s[i] == '.'
  {
    if |parts| > 1 {
      JoinCharacters(parts[1..]);
    }
  }

  predicate DottedDigits(ip: string) {
    ip != "" && IsDigit(ip[0]) && forall i :: 0 <= i < |ip| ==> IsDigit(ip[i]) || ip[i] == '.'
  }

  lemma IpStringShape(v: u32)
    ensures DottedDigits(IpString(v)) && IsDigit(IpString(v)[|IpString(v)| - 1])
  {
    JoinCharacters(Octets(v));
  }

  lemma NotTrimmed(ip: string, mask: string)
    requires DottedDigits(ip) && mask != "" && AllDigits(mask)
    ensures TrimSpace(ip + "/" + mask) == ip + "/" + mask
  {
    var s := ip + "/" + mask;
    assert s[0] == ip[0] && s[|s| - 1] == mask[|mask| - 1];
  }

  lemma CutAtSlash(ip: string, mask: string)
    requires DottedDigits(ip)
    ensures ParseCIDR(ip + "/" + mask) == ParsePrefix(ip, mask)
  {
    IndexAfter(ip, "/", mask);
    var s := ip + "/" + mask;
    assert s[..|ip|] == ip && s[|ip| + 1..] == mask;
  }

  lemma PartsReadBack(ip: string, mask: string, v: u32, n: nat)
    requires DottedDigits(ip) && ParseIPv4(ip) == Some(v)
    requires mask != "" && AllDigits(mask) && NumeralValue(mask) == n
    requires n <= 32 && LowClear(v, 32 - n)
    ensures ParseCIDR(ip + "/" + mask) == Some(Prefix(v, n))
  {
    CutAtSlash(ip, mask);
  }

  lemma LineOfPrefix(line: string, p: Prefix)
    requires TrimSpace(line) == line && ParseCIDR(line) == Some(p)
    ensures LineRange(line) == Some(PrefixRange(p))
  {
  }

  /** s writes the address v with the mask length ones, possibly with zeros in front. */
  ghost predicate Writes(s: string, v: u32, ones: nat) {
    exists k: nat :: s == IpString(v) + "/" + (Zeros(k) + Decimal(ones))
  }

  /**
   * The texts that parse as a prefix are exactly a printed address, a slash and a length up to 32; the host
   * bits of the address are dropped.
   */
  lemma ParsedExactly(s: string, p: Prefix)
    ensures ParseCIDR(s) == Some(p)
            <==> p.ones <= 32 && exists v: u32 :: Writes(s, v, p.ones) && p.network == v - v % Pow2(32 - p.ones)
  {
    hide ParseIPv4, IpString, Masked, Pow2, NumeralValue, Index;
    if ParseCIDR(s) == Some(p) {
      PartsOfParsed(s, p);
    }
    forall v: u32 | p.ones <= 32 && Writes(s, v, p.ones) && p.network == v - v % Pow2(32 - p.ones)
      ensures ParseCIDR(s) == Some(p)
    {
      var k: nat :| s == IpString(v) + "/" + (Zeros(k) + Decimal(p.ones));
      WrittenParses(v, k, p);
    }
  }

  lemma MaskedIsFloor(v: u32, ones: nat)
    requires ones <= 32
    ensures Masked(v, ones).ones == ones && Masked(v, ones).network == v - v % Pow2(32 - ones)
  {
    ClearLowIsFloor(v, 32 - ones);
  }

  lemma PartsOfParsed(s: string, p: Prefix)
    requires ParseCIDR(s) == Some(p)
    ensures p.ones <= 32 && exists v: u32 :: Writes(s, v, p.ones) && p.network == v - v % Pow2(32 - p.ones)
  {
    hide ParseIPv4, IpString, Masked, Pow2, NumeralValue, Index;
    var i := Index(s, "/");
    IndexOfChar(s, '/');
    assert s == s[..i] + "/" + s[i + 1..];
    var v := ParseIPv4(s[..i]).value;
    ParsedIffPrinted(s[..i], v);
    var k := NumeralShape(s[i + 1..]);
    MaskedIsFloor(v, NumeralValue(s[i + 1..]));
    assert Writes(s, v, p.ones);
  }

  lemma WrittenParses(v: u32, k: nat, p: Prefix)
    requires p.ones <= 32 && p.network == v - v % Pow2(32 - p.ones)
    ensures ParseCIDR(IpString(v) + "/" + (Zeros(k) + Decimal(p.ones))) == Some(p)
  {
    hide ParseIPv4, IpString, Masked, Pow2, NumeralValue, Index;
    var mask := Zeros(k) + Decimal(p.ones);
    IpStringShape(v);
    ParsedIffPrinted(IpString(v), v);
    LeadingZeros(k, Decimal(p.ones));
    DecimalValue(p.ones);
    CutAtSlash(IpString(v), mask);
    MaskedIsFloor(v, p.ones);
  }

  /** Parsing a printed block gives back exactly that block. */
  lemma PrintedBlockReadBack(b: Block)
    requires Aligned(b)
    ensures ParseCIDR(PrintBlock(b)) == Some(Prefix(b.base, 32 - b.bits))
  {
    IpStringShape(b.base);
    OctetsReadBack(b.base);
    DecimalValue(32 - b.bits);
    PartsReadBack(IpString(b.base), Decimal(32 - b.bits), b.base, 32 - b.bits);
  }

  lemma PrintedTrimmed(b: Block)
    requires b.bits <= 32
    ensures TrimSpace(PrintBlock(b)) == PrintBlock(b)
  {
    IpStringShape(b.base);
    NotTrimmed(IpString(b.base), Decimal(32 - b.bits));
  }

  /** A printed block, read as an exclusion line, contributes the addresses of the block. */
  lemma PrintedBlockRange(b: Block)
    requires Aligned(b)
    ensures LineRange(PrintBlock(b)) == Some(PrefixRange(Prefix(b.base, 32 - b.bits)))
  {
    PrintedBlockReadBack(b);
    PrintedTrimmed(b);
    LineOfPrefix(PrintBlock(b), Prefix(b.base, 32 - b.bits));
  }

  /** Commas and line breaks separate entries, and printed blocks contain neither. */
  lemma PrintedWithoutSeparators(b: Block)
    requires b.bits <= 32
    ensures ',' !in PrintBlock(b) && '\n' !in PrintBlock(b)
  {
    IpStringShape(b.base);
  }

  /** itoa: the decimal numeral of a number of at most three digits; nothing for a negative number. */
  method Itoa(n: int) returns (s: string)
    requires n < 1000
    ensures s == if n < 0 then "" else Decimal(n)
  {
    if n == 0 {
      return "0";
    }
    var b := new char[3](_ => '0');
    var i := 3;
    var rest := n;
    while rest > 0
      invariant 0 <= i <= 3
      invariant rest > 0 ==> i > 0 && rest < if i == 3 then 1000 else if i == 2 then 100 else 10
      invariant n > 0 ==> rest >= 0
      invariant n < 0 ==> rest == n && i == 3
      invariant n > 0 ==> (if rest > 0 then Decimal(rest) else "") + b[i..] == Decimal(n)
    {
      ghost var was := b[i..];
      i := i - 1;
      b[i] := DigitChar(rest % 10);
      assert b[i..] == [DigitChar(rest % 10)] + was;
      rest := rest / 10;
    }
    s := b[i..];
  }
}

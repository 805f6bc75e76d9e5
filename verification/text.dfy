/** The parts of Go's strings package that the address list needs, and decimal numerals. */
module Text {
  datatype Option<+T> = None | Some(value: T)

  predicate IsDigit(c: char) {
    '0' <= c <= '9'
  }

  predicate AllDigits(s: string) {
    forall i :: 0 <= i < |s| ==> IsDigit(s[i])
  }

  /** unicode.IsSpace */
  predicate IsSpace(c: char) {
    c in {'\t', '\n', '\U{0B}', '\U{0C}', '\r', ' ', '\U{85}', '\U{A0}', '\U{1680}',
          '\U{2028}', '\U{2029}', '\U{202F}', '\U{205F}', '\U{3000}'}
    || '\U{2000}' <= c <= '\U{200A}'
  }

  /** strings.TrimSpace */
  function TrimSpace(s: string): (r: string)
    decreases |s|
  {
    if s == "" then s
    else if IsSpace(s[0]) then TrimSpace(s[1..])
    else if IsSpace(s[|s| - 1]) then TrimSpace(s[..|s| - 1])
    else s
  }

  /** Trimming takes away white space at both ends, all of it and nothing else. */
  lemma {:induction false} TrimmedPart(s: string) returns (i: nat, j: nat)
    ensures i <= j <= |s| && TrimSpace(s) == s[i..j]
    ensures forall k :: 0 <= k < i || j <= k < |s| ==> IsSpace(s[k])
    ensures i < j ==> !IsSpace(s[i]) && !IsSpace(s[j - 1])
    decreases |s|
  {
    hide IsSpace;
    if s == "" {
      return 0, 0;
    } else if IsSpace(s[0]) {
      i, j := TrimmedPart(s[1..]);
      ShiftedPart(s, i, j);
      i, j := i + 1, j + 1;
    } else if IsSpace(s[|s| - 1]) {
      i, j := TrimmedPart(s[..|s| - 1]);
      assert s[i..j] == s[..|s| - 1][i..j];
    } else {
      i, j := 0, |s|;
    }
  }

  /** White space around a text, a carriage return at the end of a line included, is trimmed away. */
  lemma PaddedTrim(s: string, c: char)
    requires || '\t' <= c <= '\r' || c in {' ', '\U{85}', '\U{A0}', '\U{1680}'} || '\U{2000}' <= c <= '\U{200A}'
             || c in {'\U{2028}', '\U{2029}', '\U{202F}', '\U{205F}', '\U{3000}'}
    ensures TrimSpace([c] + s) == TrimSpace(s) == TrimSpace(s + [c])
  {
    assert ([c] + s)[1..] == s;
    TrimTail(s, c);
  }

  lemma {:induction false} TrimTail(s: string, c: char)
    requires IsSpace(c)
    ensures TrimSpace(s + [c]) == TrimSpace(s)
    decreases |s|
  {
    hide IsSpace;
    var all := s + [c];
    if s == "" {
      assert all[1..] == "";
    } else if IsSpace(s[0]) {
      assert all[1..] == s[1..] + [c];
      TrimTail(s[1..], c);
    } else {
      assert all[..|all| - 1] == s;
    }
  }

  lemma ShiftedPart(s: string, i: nat, j: nat)
    requires s != "" && i <= j < |s|
    ensures s[1..][i..j] == s[i + 1..j + 1]
    ensures forall k :: 1 <= k < |s| ==> s[k] == s[1..][k - 1]
  {
  }

  /** strings.Index: the first position of sep in s, or -1. */
  function Index(s: string, sep: string): (i: int)
    requires sep != ""
    ensures -1 <= i
    ensures i >= 0 ==> i + |sep| <= |s| && s[i..i + |sep|] == sep
  {
    if sep <= s then 0
    else if s == "" then -1
    else
      var i := Index(s[1..], sep);
      assert i >= 0 ==> s[i + 1..i + 1 + |sep|] == s[1..][i..i + |sep|];
      if i < 0 then -1 else i + 1
  }

  /** strings.Split */
  function Split(s: string, sep: string): (parts: seq<string>)
    requires sep != ""
    ensures |parts| > 0
    decreases |s|
  {
    var i := Index(s, sep);
    if i < 0 then [s] else [s[..i]] + Split(s[i + |sep|..], sep)
  }

  /** strings.Join */
  function Join(parts: seq<string>, sep: string): string {
    if parts == [] then ""
    else if |parts| == 1 then parts[0]
    else parts[0] + sep + Join(parts[1..], sep)
  }

  function DigitChar(d: nat): char
    requires d < 10
  {
    '0' + d as char
  }

  function DigitValue(c: char): nat
    requires IsDigit(c)
  {
    (c - '0') as int
  }

  /** The decimal numeral of n, without leading zeros. */
  function Decimal(n: nat): (s: string)
    ensures |s| > 0 && AllDigits(s)
    ensures |s| > 1 ==> s[0] != '0'
  {
    if n < 10 then [DigitChar(n)] else Decimal(n / 10) + [DigitChar(n % 10)]
  }

  function NumeralValue(s: string): nat
    requires AllDigits(s)
  {
    if s == "" then 0 else 10 * NumeralValue(s[..|s| - 1]) + DigitValue(s[|s| - 1])
  }

  lemma {:induction false} DecimalValue(n: nat)
    ensures NumeralValue(Decimal(n)) == n
  {
    if n < 10 {
      assert Decimal(n)[..0] == "";
    } else {
      DecimalValue(n / 10);
      assert Decimal(n)[..|Decimal(n)| - 1] == Decimal(n / 10);
    }
  }

  /** A numeral without leading zeros is the decimal numeral of its value. */
  lemma {:induction false} NumeralIsDecimal(s: string)
    requires s != "" && AllDigits(s) && (|s| > 1 ==> s[0] != '0')
    ensures s == Decimal(NumeralValue(s))
  {
    var init, last := s[..|s| - 1], s[|s| - 1];
    assert s == init + [last];
    DigitBack(last);
    if init != "" {
      NumeralIsDecimal(init);
      NumeralPositive(init);
      hide DigitChar, DigitValue;
      DecimalStep(NumeralValue(init), DigitValue(last));
    }
  }

  lemma DigitBack(c: char)
    requires IsDigit(c)
    ensures DigitValue(c) < 10 && DigitChar(DigitValue(c)) == c
  {
  }

  lemma DecimalStep(q: nat, d: nat)
    requires q > 0 && d < 10
    ensures Decimal(10 * q + d) == Decimal(q) + [DigitChar(d)]
  {
    assert (10 * q + d) / 10 == q && (10 * q + d) % 10 == d;
  }

  lemma {:induction false} NumeralPositive(s: string)
    requires s != "" && AllDigits(s) && s[0] != '0'
    ensures NumeralValue(s) > 0
  {
    if |s| > 1 {
      NumeralPositive(s[..|s| - 1]);
    }
  }

  function Zeros(k: nat): string {
    seq(k, _ => '0')
  }

  lemma {:induction false} LeadingZeros(k: nat, s: string)
    requires AllDigits(s)
    ensures AllDigits(Zeros(k) + s) && NumeralValue(Zeros(k) + s) == NumeralValue(s)
    decreases k + |s|
  {
    var all := Zeros(k) + s;
    if s != "" {
      assert all[..|all| - 1] == Zeros(k) + s[..|s| - 1];
      LeadingZeros(k, s[..|s| - 1]);
    } else if k > 0 {
      assert all[..k - 1] == Zeros(k - 1) + "";
      LeadingZeros(k - 1, "");
    }
  }

  /** Any numeral is the decimal numeral of its value behind some zeros. */
  lemma {:induction false} NumeralShape(s: string) returns (k: nat)
    requires s != "" && AllDigits(s)
    ensures s == Zeros(k) + Decimal(NumeralValue(s))
  {
    if |s| > 1 && s[0] == '0' {
      k := NumeralShape(s[1..]);
      LeadingZeros(1, s[1..]);
      assert s == Zeros(1) + s[1..];
      k := k + 1;
    } else {
      NumeralIsDecimal(s);
      k := 0;
    }
  }

  lemma DecimalInjective(m: nat, n: nat)
    requires Decimal(m) == Decimal(n)
    ensures m == n
  {
    DecimalValue(m);
    DecimalValue(n);
  }

  /** The position found is the first one, and there is none exactly when the separator does not occur. */
  lemma {:induction false} IndexIsFirst(s: string, sep: string, k: nat)
    requires sep != "" && k <= |s| && sep <= s[k..]
    ensures 0 <= Index(s, sep) <= k
  {
    if !(sep <= s) {
      assert k > 0 by {
        assert s[0..] == s;
      }
      assert s[1..][k - 1..] == s[k..];
      IndexIsFirst(s[1..], sep, k - 1);
    }
  }

  lemma IndexOfChar(s: string, c: char)
    ensures var i := Index(s, [c]);
            if i < 0 then c !in s else i < |s| && s[i] == c && c !in s[..i]
  {
    var i := Index(s, [c]);
    forall k | 0 <= k < |s| && s[k] == c ensures 0 <= i <= k {
      assert [c] <= s[k..];
      IndexIsFirst(s, [c], k);
    }
    if i >= 0 {
      assert s[i..i + 1][0] == c;
    }
  }

  /** Splitting at a character cuts at all its occurrences, and joining puts the parts together again. */
  lemma {:induction false} JoinSplit(s: string, c: char)
    ensures Join(Split(s, [c]), [c]) == s
    ensures forall p :: p in Split(s, [c]) ==> c !in p
    decreases |s|
  {
    hide Index;
    IndexOfChar(s, c);
    var i := Index(s, [c]);
    if i >= 0 {
      JoinSplit(s[i + 1..], c);
      assert s == s[..i] + [c] + s[i + 1..];
    }
  }

  lemma {:induction false} IndexAbsent(s: string, sep: string)
    requires sep != "" && sep[0] !in s
    ensures Index(s, sep) == -1
  {
    if s != "" {
      assert s[0] in s;
      IndexAbsent(s[1..], sep);
    }
  }

  lemma IndexStep(s: string, sep: string)
    requires sep != ""
    ensures sep <= s ==> Index(s, sep) == 0
    ensures s != "" && !(sep <= s) ==>
              Index(s, sep) == if Index(s[1..], sep) < 0 then -1 else Index(s[1..], sep) + 1
  {
  }

  lemma {:induction false} IndexAfter(s: string, sep: string, rest: string)
    requires sep != "" && sep[0] !in s
    ensures Index(s + sep + rest, sep) == |s|
  {
    hide Index;
    var whole := s + sep + rest;
    IndexStep(whole, sep);
    if s == "" {
      assert whole == sep + rest;
    } else {
      IndexAfter(s[1..], sep, rest);
      assert whole[1..] == s[1..] + sep + rest;
      NotAtFront(whole, s, sep);
    }
  }

  lemma NotAtFront(whole: string, s: string, sep: string)
    requires s != "" && sep != "" && sep[0] !in s && s <= whole
    ensures !(sep <= whole)
  {
    assert whole[0] == s[0] && s[0] in s;
  }

  /** Splitting undoes joining when no part contains the first character of the separator. */
  lemma {:induction false} SplitJoin(parts: seq<string>, sep: string)
    requires sep != "" && parts != []
    requires forall p :: p in parts ==> sep[0] !in p
    ensures Split(Join(parts, sep), sep) == parts
  {
    if |parts| == 1 {
      IndexAbsent(parts[0], sep);
    } else {
      var rest := Join(parts[1..], sep);
      IndexAfter(parts[0], sep, rest);
      SplitJoin(parts[1..], sep);
      var s := parts[0] + sep + rest;
      assert s[|parts[0]| + |sep|..] == rest;
      assert s[..|parts[0]|] == parts[0];
    }
  }

  lemma JoinInjective(xs: seq<string>, ys: seq<string>, sep: string)
    requires sep != "" && xs != [] && ys != []
    requires forall p :: p in xs + ys ==> sep[0] !in p
    requires Join(xs, sep) == Join(ys, sep)
    ensures xs == ys
  {
    SplitJoin(xs, sep);
    SplitJoin(ys, sep);
  }
}

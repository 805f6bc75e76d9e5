/** The hash-chained ledger. The digest stands for hex-encoded SHA-256 and is any function with its shape. */
module Ledger {
  import opened Text

  /** Hundredths, as the format %.2f prints them. */
  function Money(cents: int): (s: string)
    ensures '|' !in s
  {
    var n: nat := if cents < 0 then -cents else cents;
    (if cents < 0 then "-" else "") + Decimal(n / 100) + "." + [DigitChar(n / 10 % 10), DigitChar(n % 10)]
  }

  /** The text of an amount: a sign if it is negative, units, a point, and two digits that make hundredths of them. */
  lemma MoneyReadsBack(cents: int) returns (units: string, fraction: string)
    ensures Money(cents) == (if cents < 0 then "-" else "") + units + "." + fraction
    ensures units != "" && |fraction| == 2 && AllDigits(units) && AllDigits(fraction)
    ensures 100 * NumeralValue(units) + NumeralValue(fraction) == if cents < 0 then -cents else cents
  {
    var n: nat := if cents < 0 then -cents else cents;
    units, fraction := Decimal(n / 100), [DigitChar(n / 10 % 10), DigitChar(n % 10)];
    DecimalValue(n / 100);
    assert fraction[..1] == [DigitChar(n / 10 % 10)] && fraction[..1][..0] == "";
    assert NumeralValue(fraction[..1]) == n / 10 % 10;
    assert NumeralValue(fraction) == 10 * (n / 10 % 10) + n % 10;
  }

  lemma MoneyInjective(a: int, b: int)
    requires Money(a) == Money(b)
    ensures a == b
  {
    var m: nat := if a < 0 then -a else a;
    var n: nat := if b < 0 then -b else b;
    var s, t := Money(a), Money(b);
    assert s[|s| - 2] == DigitChar(m / 10 % 10) && s[|s| - 1] == DigitChar(m % 10);
    assert t[|t| - 2] == DigitChar(n / 10 % 10) && t[|t| - 1] == DigitChar(n % 10);
    assert s[..|s| - 3] == (if a < 0 then "-" else "") + Decimal(m / 100);
    assert t[..|t| - 3] == (if b < 0 then "-" else "") + Decimal(n / 100);
    assert IsDigit(Decimal(m / 100)[0]) && IsDigit(Decimal(n / 100)[0]);
    assert a < 0 <==> b < 0 by {
      assert a < 0 <==> s[0] == '-';
      assert b < 0 <==> t[0] == '-';
    }
    SameUnits(s, t, a < 0, m, n);
  }

  lemma SameUnits(s: string, t: string, negative: bool, m: nat, n: nat)
    requires s == t && |s| >= 3
    requires s[..|s| - 3] == (if negative then "-" else "") + Decimal(m / 100)
    requires t[..|t| - 3] == (if negative then "-" else "") + Decimal(n / 100)
    requires m % 10 == n % 10 && m / 10 % 10 == n / 10 % 10
    ensures m == n
  {
    if negative {
      assert s[..|s| - 3][1..] == Decimal(m / 100);
      assert t[..|t| - 3][1..] == Decimal(n / 100);
    } else {
      assert "" + Decimal(m / 100) == Decimal(m / 100);
      assert "" + Decimal(n / 100) == Decimal(n / 100);
    }
    DecimalInjective(m / 100, n / 100);
  }

  /** What an entry says: the hashed columns except the previous hash. */
  datatype Body = Body(kind: string, amount: int, currency: string, refType: string, ref: nat, user: nat)

  datatype Entry = Entry(id: nat, createdAt: int, body: Body, prevHash: string, hash: string)

  predicate Clean(b: Body) {
    '|' !in b.kind && '|' !in b.currency && '|' !in b.refType
  }

  function Fields(prevHash: string, b: Body): seq<string> {
    [prevHash, b.kind, Money(b.amount), b.currency, b.refType, Decimal(b.ref), Decimal(b.user)]
  }

  function Payload(prevHash: string, b: Body): string {
    Join(Fields(prevHash, b), "|")
  }

  /** The payload is seven fields between separators, in this order. */
  lemma PayloadReadsBack(p: string, b: Body)
    requires '|' !in p && Clean(b)
    ensures Split(Payload(p, b), "|")
            == [p, b.kind, Money(b.amount), b.currency, b.refType, Decimal(b.ref), Decimal(b.user)]
  {
    SplitJoin(Fields(p, b), "|");
  }

  /** No two different entries have the same payload. */
  lemma PayloadInjective(p: string, b: Body, q: string, c: Body)
    requires '|' !in p && '|' !in q && Clean(b) && Clean(c)
    requires Payload(p, b) == Payload(q, c)
    ensures p == q && b == c
  {
    var xs, ys := Fields(p, b), Fields(q, c);
    hide Join, Money, Decimal;
    JoinInjective(xs, ys, "|");
    assert xs[0] == ys[0] && xs[1] == ys[1] && xs[2] == ys[2] && xs[3] == ys[3];
    assert xs[4] == ys[4] && xs[5] == ys[5] && xs[6] == ys[6];
    MoneyInjective(b.amount, c.amount);
    DecimalInjective(b.ref, c.ref);
    DecimalInjective(b.user, c.user);
  }

  // Appending

  /** ORDER BY created_at DESC, id DESC */
  predicate Newer(a: Entry, b: Entry) {
    a.createdAt > b.createdAt || (a.createdAt == b.createdAt && a.id > b.id)
  }

  /** The row that the query for the previous hash returns. */
  function Newest(rows: seq<Entry>, user: nat): (r: Option<nat>)
    ensures r.Some? ==> r.value < |rows| && rows[r.value].body.user == user
    ensures r.None? ==> forall i :: 0 <= i < |rows| ==> rows[i].body.user != user
    ensures r.Some? ==> forall i :: 0 <= i < |rows| && rows[i].body.user == user ==> !Newer(rows[i], rows[r.value])
  {
    if rows == [] then None
    else
      var last := |rows| - 1;
      var best := Newest(rows[..last], user);
      if rows[last].body.user == user && (best.None? || Newer(rows[last], rows[best.value])) then Some(last) else best
  }

  function PrevHash(rows: seq<Entry>, user: nat): string {
    match Newest(rows, user)
    case None => ""
    case Some(i) => rows[i].hash
  }

  function Append(digest: string -> string, rows: seq<Entry>, b: Body, now: int, id: nat): seq<Entry> {
    var prev := PrevHash(rows, b.user);
    rows + [Entry(id, now, b, prev, digest(Payload(prev, b)))]
  }

  // Chains

  /** The entries of one user, in the order in which they were written. */
  function ChainOf(rows: seq<Entry>, user: nat): seq<Entry> {
    if rows == [] then []
    else
      ChainOf(rows[..|rows| - 1], user) + if rows[|rows| - 1].body.user == user then [rows[|rows| - 1]] else []
  }

  function HeadHash(chain: seq<Entry>): string {
    if chain == [] then "" else chain[|chain| - 1].hash
  }

  /** Every entry names the hash of the one before it, and its own hash is that of its payload. */
  ghost predicate Verifies(digest: string -> string, chain: seq<Entry>) {
    forall i :: 0 <= i < |chain| ==>
                  && chain[i].prevHash == HeadHash(chain[..i])
                  && chain[i].hash == digest(Payload(chain[i].prevHash, chain[i].body))
  }

  lemma VerifiesAppend(digest: string -> string, chain: seq<Entry>, e: Entry)
    requires Verifies(digest, chain)
    ensures Verifies(digest, chain + [e])
            <==> e.prevHash == HeadHash(chain) && e.hash == digest(Payload(e.prevHash, e.body))
  {
    var all := chain + [e];
    forall i | 0 <= i <= |chain| ensures all[..i] == chain[..i] {
    }
    assert chain[..|chain|] == chain;
    hide Payload, HeadHash;
    assert all[|chain|] == e;
  }

  lemma ChainAppend(rows: seq<Entry>, e: Entry, user: nat)
    ensures ChainOf(rows + [e], user) == ChainOf(rows, user) + if e.body.user == user then [e] else []
  {
    assert (rows + [e])[..|rows|] == rows;
  }

  /** An appended entry extends the chain of its user when it continues the hash of the one before. */
  lemma AppendExtends(digest: string -> string, rows: seq<Entry>, b: Body, now: int, id: nat, user: nat)
    requires Verifies(digest, ChainOf(rows, user))
    ensures Verifies(digest, ChainOf(Append(digest, rows, b, now, id), user))
            <==> user == b.user ==> PrevHash(rows, user) == HeadHash(ChainOf(rows, user))
  {
    var rows' := Append(digest, rows, b, now, id);
    ChainAppend(rows, rows'[|rows|], user);
    if user == b.user {
      VerifiesAppend(digest, ChainOf(rows, user), rows'[|rows|]);
    } else {
      assert ChainOf(rows', user) == ChainOf(rows, user);
    }
  }

  /** Each of the user's rows is newer than those written before it. */
  ghost predicate InOrder(rows: seq<Entry>, user: nat) {
    forall i, j :: 0 <= i < j < |rows| && rows[i].body.user == user && rows[j].body.user == user ==>
                     Newer(rows[j], rows[i])
  }

  /** An entry written now, with the given id, is newer than all rows of the user. */
  ghost predicate Latest(rows: seq<Entry>, user: nat, now: int, id: nat) {
    forall i :: 0 <= i < |rows| && rows[i].body.user == user ==>
                  now > rows[i].createdAt || (now == rows[i].createdAt && id > rows[i].id)
  }

  /** The position of the row of the user that was written last. */
  function LastWritten(rows: seq<Entry>, user: nat): (r: Option<nat>)
    ensures r.Some? ==> r.value < |rows| && rows[r.value].body.user == user
    ensures forall i :: 0 <= i < |rows| && rows[i].body.user == user ==> r.Some? && i <= r.value
  {
    if rows == [] then None
    else if rows[|rows| - 1].body.user == user then Some(|rows| - 1)
    else LastWritten(rows[..|rows| - 1], user)
  }

  /** The position in its user's chain of the row at position i. */
  function Rank(rows: seq<Entry>, user: nat, i: nat): (r: nat)
    requires i < |rows| && rows[i].body.user == user
    ensures r < |ChainOf(rows, user)| && ChainOf(rows, user)[r] == rows[i]
  {
    if i == |rows| - 1 then |ChainOf(rows[..|rows| - 1], user)| else Rank(rows[..|rows| - 1], user, i)
  }

  lemma {:induction false} RankAscends(rows: seq<Entry>, user: nat, i: nat, j: nat)
    requires i < j < |rows| && rows[i].body.user == user && rows[j].body.user == user
    ensures Rank(rows, user, i) < Rank(rows, user, j)
  {
    if j < |rows| - 1 {
      RankAscends(rows[..|rows| - 1], user, i, j);
    }
  }

  lemma {:induction false} LastIsHead(rows: seq<Entry>, user: nat)
    ensures match LastWritten(rows, user)
            case None => ChainOf(rows, user) == []
            case Some(i) => ChainOf(rows, user) != [] && Rank(rows, user, i) == |ChainOf(rows, user)| - 1
  {
    if rows != [] && rows[|rows| - 1].body.user != user {
      LastIsHead(rows[..|rows| - 1], user);
    }
  }

  /** The hash that an append continues is that of the head, when the newest row was written last. */
  lemma NewestIsHead(rows: seq<Entry>, user: nat)
    requires Newest(rows, user) == LastWritten(rows, user)
    ensures PrevHash(rows, user) == HeadHash(ChainOf(rows, user))
  {
    LastIsHead(rows, user);
    hide Newest, LastWritten, ChainOf;
  }

  /** Otherwise it is the hash of an earlier entry of the chain. */
  lemma NewestIsEarlier(digest: string -> string, rows: seq<Entry>, user: nat)
    requires IsDigest(digest) && Verifies(digest, ChainOf(rows, user)) && AllClean(ChainOf(rows, user))
    requires Newest(rows, user) != LastWritten(rows, user) && PrevHash(rows, user) == HeadHash(ChainOf(rows, user))
    ensures Collision(digest, ChainOf(rows, user), ChainOf(rows, user))
  {
    hide Verifies, Newest, LastWritten, ChainOf, Rank, Collision, AllClean, IsDigest;
    LastIsHead(rows, user);
    var newest, last := Newest(rows, user), LastWritten(rows, user);
    assert newest.Some? && last.Some? && newest.value < last.value;
    RankAscends(rows, user, newest.value, last.value);
    DistinctHashes(digest, ChainOf(rows, user), Rank(rows, user, newest.value), Rank(rows, user, last.value));
  }

  /**
   * An append keeps its user's chain linear if and only if the newest row of the user, by time and id, is the
   * one that was written last. Only a collision within the chain could make up for a difference.
   */
  lemma AppendKeepsChain(digest: string -> string, rows: seq<Entry>, b: Body, now: int, id: nat)
    requires IsDigest(digest) && Verifies(digest, ChainOf(rows, b.user)) && AllClean(ChainOf(rows, b.user))
    ensures (Verifies(digest, ChainOf(Append(digest, rows, b, now, id), b.user))
             <==> Newest(rows, b.user) == LastWritten(rows, b.user))
            || Collision(digest, ChainOf(rows, b.user), ChainOf(rows, b.user))
  {
    hide Verifies, Newest, LastWritten, ChainOf, Collision, AllClean, IsDigest, PrevHash, HeadHash, Append;
    AppendExtends(digest, rows, b, now, id, b.user);
    if Newest(rows, b.user) == LastWritten(rows, b.user) {
      NewestIsHead(rows, b.user);
    } else if PrevHash(rows, b.user) == HeadHash(ChainOf(rows, b.user)) {
      NewestIsEarlier(digest, rows, b.user);
    }
  }

  /** The row that an append writes is the newest one if and only if its time and id exceed all earlier ones. */
  lemma AppendIsNewest(digest: string -> string, rows: seq<Entry>, b: Body, now: int, id: nat)
    ensures var rows' := Append(digest, rows, b, now, id);
            && LastWritten(rows', b.user) == Some(|rows|)
            && (Newest(rows', b.user) == Some(|rows|) <==> Latest(rows, b.user, now, id))
  {
    var rows' := Append(digest, rows, b, now, id);
    assert rows'[..|rows|] == rows;
    var best := Newest(rows, b.user);
    if best.Some? {
      assert rows[best.value].body.user == b.user;
    }
  }

  lemma InOrderMeans(rows: seq<Entry>, user: nat)
    requires InOrder(rows, user)
    ensures Newest(rows, user) == LastWritten(rows, user)
  {
    if Newest(rows, user) != LastWritten(rows, user) {
      assert false;
    }
  }

  /** With rows in order of time and id, a later one keeps every chain linear and the rows in order. */
  lemma AppendInOrder(digest: string -> string, rows: seq<Entry>, b: Body, now: int, id: nat, user: nat)
    requires Verifies(digest, ChainOf(rows, user)) && InOrder(rows, user)
    requires user == b.user ==> Latest(rows, user, now, id)
    ensures Verifies(digest, ChainOf(Append(digest, rows, b, now, id), user))
    ensures InOrder(Append(digest, rows, b, now, id), user)
  {
    hide Verifies, Newest, LastWritten, ChainOf, PrevHash, HeadHash, Payload;
    InOrderMeans(rows, user);
    NewestIsHead(rows, user);
    AppendExtends(digest, rows, b, now, id, user);
  }

  /** Two transactions that read the same rows before either writes fork the chain, unless a collision hides it. */
  lemma ConcurrentAppendsFork(digest: string -> string, rows: seq<Entry>, b: Body, c: Body, e: Entry, f: Entry)
    requires IsDigest(digest) && Verifies(digest, ChainOf(rows, b.user)) && AllClean(ChainOf(rows, b.user))
    requires Newest(rows, b.user) == LastWritten(rows, b.user)
    requires Clean(b) && c.user == b.user
    requires Append(digest, rows, b, e.createdAt, e.id) == rows + [e]
    requires Append(digest, rows, c, f.createdAt, f.id) == rows + [f]
    ensures !Verifies(digest, ChainOf(rows + [e] + [f], b.user))
            || Collision(digest, ChainOf(rows + [e], b.user), ChainOf(rows + [e], b.user))
  {
    var user := b.user;
    var chain := ChainOf(rows, user);
    assert e == Append(digest, rows, b, e.createdAt, e.id)[|rows|];
    assert f == Append(digest, rows, c, f.createdAt, f.id)[|rows|];
    LastIsHead(rows, user);
    AppendExtends(digest, rows, b, e.createdAt, e.id, user);
    ChainAppend(rows, e, user);
    ChainAppend(rows + [e], f, user);
    var longer := chain + [e];
    VerifiesAppend(digest, longer, f);
    assert chain == [] ==> f.prevHash == "" && e.hash != "";
    if f.prevHash == e.hash {
      assert longer[|chain| - 1].hash == longer[|chain|].hash;
      DistinctHashes(digest, longer, |chain| - 1, |chain|);
    }
  }

  // Tampering

  /** The shape of hex-encoded SHA-256: never empty, and free of the separator. */
  ghost predicate IsDigest(digest: string -> string) {
    forall s :: digest(s) != "" && '|' !in digest(s)
  }

  ghost predicate AllClean(chain: seq<Entry>) {
    forall i :: 0 <= i < |chain| ==> Clean(chain[i].body)
  }

  function PayloadAt(chain: seq<Entry>, i: nat): string
    requires i < |chain|
  {
    Payload(chain[i].prevHash, chain[i].body)
  }

  /** Two different payloads, one of each chain, with the same digest. */
  ghost predicate Collision(digest: string -> string, a: seq<Entry>, b: seq<Entry>) {
    exists i, j :: 0 <= i < |a| && 0 <= j < |b|
                   && PayloadAt(a, i) != PayloadAt(b, j) && digest(PayloadAt(a, i)) == digest(PayloadAt(b, j))
  }

  /** Equal in every hashed column and in both hashes. */
  ghost predicate SameEntries(a: seq<Entry>, b: seq<Entry>) {
    |a| == |b|
    && forall i :: 0 <= i < |a| ==> a[i].body == b[i].body && a[i].prevHash == b[i].prevHash && a[i].hash == b[i].hash
  }

  /**
   * Two chains that verify and end in the same hash agree entry by entry, unless they exhibit a collision
   * of the digest.
   */
  lemma {:induction false} TamperEvident(digest: string -> string, a: seq<Entry>, b: seq<Entry>)
    requires IsDigest(digest) && Verifies(digest, a) && Verifies(digest, b) && AllClean(a) && AllClean(b)
    requires HeadHash(a) == HeadHash(b)
    ensures SameEntries(a, b) || Collision(digest, a, b)
    decreases |a|
  {
    hide Verifies, PayloadAt, HeadHash, AllClean, Collision, IsDigest, SameEntries;
    HeadOfChain(digest, a);
    HeadOfChain(digest, b);
    if a == [] {
      NothingDiffers(a, b);
    } else {
      var m, n := |a| - 1, |b| - 1;
      if PayloadAt(a, m) == PayloadAt(b, n) {
        LastEntriesAgree(digest, a, b);
        TamperEvident(digest, a[..m], b[..n]);
        if Collision(digest, a[..m], b[..n]) {
          CollisionInPrefix(digest, a, b, m, n);
        } else {
          SameEntriesExtend(a, b);
        }
      } else {
        CollisionAt(digest, a, b, m, n);
      }
    }
  }

  lemma LastEntriesAgree(digest: string -> string, a: seq<Entry>, b: seq<Entry>)
    requires IsDigest(digest) && Verifies(digest, a) && Verifies(digest, b) && AllClean(a) && AllClean(b)
    requires a != [] && b != [] && PayloadAt(a, |a| - 1) == PayloadAt(b, |b| - 1)
    ensures a[|a| - 1].body == b[|b| - 1].body && a[|a| - 1].prevHash == b[|b| - 1].prevHash
    ensures a[|a| - 1].hash == b[|b| - 1].hash
    ensures Verifies(digest, a[..|a| - 1]) && Verifies(digest, b[..|b| - 1])
    ensures HeadHash(a[..|a| - 1]) == HeadHash(b[..|b| - 1])
    ensures AllClean(a[..|a| - 1]) && AllClean(b[..|b| - 1])
  {
    var m, n := |a| - 1, |b| - 1;
    hide Payload;
    HeadOfVerified(digest, a[..m]);
    HeadOfVerified(digest, b[..n]);
    PrefixVerifies(digest, a, m);
    PrefixVerifies(digest, b, n);
    PayloadInjective(a[m].prevHash, a[m].body, b[n].prevHash, b[n].body);
  }

  lemma HeadOfVerified(digest: string -> string, chain: seq<Entry>)
    requires IsDigest(digest)
    requires forall i :: 0 <= i < |chain| ==> chain[i].hash == digest(Payload(chain[i].prevHash, chain[i].body))
    ensures '|' !in HeadHash(chain)
    ensures HeadHash(chain) == "" <==> chain == []
  {
  }

  lemma HeadOfChain(digest: string -> string, chain: seq<Entry>)
    requires IsDigest(digest) && Verifies(digest, chain)
    ensures HeadHash(chain) == "" <==> chain == []
    ensures chain != [] ==> HeadHash(chain) == digest(PayloadAt(chain, |chain| - 1))
  {
    HeadOfVerified(digest, chain);
  }

  lemma NothingDiffers(a: seq<Entry>, b: seq<Entry>)
    requires a == [] && b == []
    ensures SameEntries(a, b)
  {
  }

  lemma PrefixVerifies(digest: string -> string, chain: seq<Entry>, n: nat)
    requires Verifies(digest, chain) && n <= |chain|
    ensures Verifies(digest, chain[..n])
  {
    forall i | 0 <= i < n ensures chain[..n][..i] == chain[..i] {
    }
  }

  lemma SameEntriesExtend(a: seq<Entry>, b: seq<Entry>)
    requires a != [] && b != [] && SameEntries(a[..|a| - 1], b[..|b| - 1])
    requires var e, f := a[|a| - 1], b[|b| - 1];
             e.body == f.body && e.prevHash == f.prevHash && e.hash == f.hash
    ensures SameEntries(a, b)
  {
    assert a == a[..|a| - 1] + [a[|a| - 1]];
    assert b == b[..|b| - 1] + [b[|b| - 1]];
  }

  lemma CollisionAt(digest: string -> string, a: seq<Entry>, b: seq<Entry>, i: nat, j: nat)
    requires i < |a| && j < |b|
    requires PayloadAt(a, i) != PayloadAt(b, j) && digest(PayloadAt(a, i)) == digest(PayloadAt(b, j))
    ensures Collision(digest, a, b)
  {
  }

  lemma CollisionInPrefix(digest: string -> string, a: seq<Entry>, b: seq<Entry>, m: nat, n: nat)
    requires m <= |a| && n <= |b| && Collision(digest, a[..m], b[..n])
    ensures Collision(digest, a, b)
  {
    var c, d := a[..m], b[..n];
    var i, j :| 0 <= i < |c| && 0 <= j < |d| && PayloadAt(c, i) != PayloadAt(d, j)
                && digest(PayloadAt(c, i)) == digest(PayloadAt(d, j));
    assert PayloadAt(c, i) == PayloadAt(a, i) && PayloadAt(d, j) == PayloadAt(b, j);
  }

  lemma EntryOfChain(digest: string -> string, chain: seq<Entry>, i: nat)
    requires IsDigest(digest) && Verifies(digest, chain) && i < |chain|
    ensures chain[i].prevHash == if i == 0 then "" else chain[i - 1].hash
    ensures chain[i].prevHash == "" <==> i == 0
    ensures '|' !in chain[i].prevHash && chain[i].hash == digest(PayloadAt(chain, i))
  {
    hide Payload;
    HeadOfVerified(digest, chain[..i]);
  }

  /** Within one verified chain equal hashes mean a collision. */
  lemma {:induction false} DistinctHashes(digest: string -> string, chain: seq<Entry>, i: nat, j: nat)
    requires IsDigest(digest) && Verifies(digest, chain) && AllClean(chain)
    requires i < j < |chain| && chain[i].hash == chain[j].hash
    ensures Collision(digest, chain, chain)
    decreases i
  {
    hide Verifies, IsDigest, Payload, Collision;
    EntryOfChain(digest, chain, i);
    EntryOfChain(digest, chain, j);
    if PayloadAt(chain, i) == PayloadAt(chain, j) {
      PayloadInjective(chain[i].prevHash, chain[i].body, chain[j].prevHash, chain[j].body);
      DistinctHashes(digest, chain, i - 1, j - 1);
    } else {
      CollisionAt(digest, chain, chain, i, j);
    }
  }
}

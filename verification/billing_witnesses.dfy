/** Runs from empty books that end where one might not expect it. */
module BillingWitnesses {
  import opened Subscriptions
  import opened Ledger
  import opened BillingTables
  import opened BillingProtocol
  import opened BillingOutcomes

  /** One more step of a run that is known so far. */
  lemma Next(w: World, steps: seq<Step>, v: World, s: Step)
    requires Legal(w, steps) && Run(w, steps) == v && Enabled(v, s)
    ensures Legal(w, steps + [s]) && Run(w, steps + [s]) == Do(v, s)
  {
    RunAppend(w, steps, s);
  }

  /** A purchase without promo that the catalogue allows. */
  predicate Plain(b: Books, n: NewOrder) {
    RefersToRows(b, n) && n.promo.None? && n.renew.None?
  }

  // The next order is placed, with a payment, claimed and issued

  function OpeningSteps(order: nat, n: NewOrder, sub: Sub): seq<Step> {
    [PlaceOrder(0, n), RegisterPayment(0, order, Pending), ClaimOrder(1, order), IssueOk(1, sub)]
  }

  function Opened(w: World, n: NewOrder, sub: Sub): World {
    var order := |w.books.orders|;
    World(
      w.books.(orders := w.books.orders + [FreshOrder(n).(status := Processing)],
               payments := w.books.payments + [Payment(order, Pending)],
               subs := w.books.subs + [sub]),
      map[1 := Fulfilment(order, Issued(|w.books.subs|))],
      w.issuances + [order])
  }

  lemma NoStepYet(w: World)
    ensures Legal(w, []) && Run(w, []) == w
  {
  }

  lemma Opening(w: World, n: NewOrder, sub: Sub)
    requires w.procs == map[] && Plain(w.books, n) && sub.status == Active
    ensures Legal(w, OpeningSteps(|w.books.orders|, n, sub))
    ensures Run(w, OpeningSteps(|w.books.orders|, n, sub)) == Opened(w, n, sub)
  {
    NoStepYet(w);
    hide Legal, Run, FinalizePaid, MarkFailed, Redeemable, HasRedeemed;
    var order := |w.books.orders|;
    var v1 := Do(w, PlaceOrder(0, n));
    Next(w, [], w, PlaceOrder(0, n));
    var v2 := Do(v1, RegisterPayment(0, order, Pending));
    Next(w, [] + [PlaceOrder(0, n)], v1, RegisterPayment(0, order, Pending));
    var v3 := Do(v2, ClaimOrder(1, order));
    Next(w, [] + [PlaceOrder(0, n)] + [RegisterPayment(0, order, Pending)], v2, ClaimOrder(1, order));
    var three := [] + [PlaceOrder(0, n)] + [RegisterPayment(0, order, Pending)] + [ClaimOrder(1, order)];
    Next(w, three, v3, IssueOk(1, sub));
    assert v3.books.orders == w.books.orders + [FreshOrder(n).(status := Processing)];
    assert Do(v3, IssueOk(1, sub)) == Opened(w, n, sub);
    assert OpeningSteps(order, n, sub) == three + [IssueOk(1, sub)];
  }

  /** A failure callback arrives before the order is finalized: somebody has a subscription that nobody paid for. */
  lemma IssuedButUnpaid(w: World, n: NewOrder, sub: Sub)
    requires Initial(w) && Plain(w.books, n) && sub.status == Active
    ensures var steps := OpeningSteps(0, n, sub) + [Fail(2, 0)] + [FinalizeRefused(1)];
            && Legal(w, steps)
            && var v := Run(w, steps);
               && v.procs == map[] && v.issuances == [0] && |v.books.orders| == 1
               && v.books.orders[0].status == Failed && v.books.ledger == []
               && v.books.subs == w.books.subs + [sub]
  {
    Opening(w, n, sub);
    var v := Opened(w, n, sub);
    var v1 := Do(v, Fail(2, 0));
    Next(w, OpeningSteps(0, n, sub), v, Fail(2, 0));
    Next(w, OpeningSteps(0, n, sub) + [Fail(2, 0)], v1, FinalizeRefused(1));
    assert v1.procs - {1} == map[];
  }

  /** The process dies after issuing: the order stays in processing for ever, whatever callbacks come. */
  lemma IssuedAndLeftBehind(w: World, n: NewOrder, sub: Sub, more: seq<Step>)
    requires Initial(w) && Plain(w.books, n) && sub.status == Active
    ensures var steps := OpeningSteps(0, n, sub) + [Stop(1)];
            && Legal(w, steps)
            && (Legal(Run(w, steps), more) ==>
                  ClaimedOrFailed(Run(Run(w, steps), more), 0) && 0 in Run(w, steps).issuances)
  {
    var steps := OpeningSteps(0, n, sub) + [Stop(1)];
    InitialInv(w);
    Opening(w, n, sub);
    var v := Opened(w, n, sub);
    Next(w, OpeningSteps(0, n, sub), v, Stop(1));
    var v1 := Do(v, Stop(1));
    assert v1.procs == map[] && v1.books.orders == v.books.orders && v1.issuances == [0];
    assert ClaimedOrFailed(v1, 0) && !UnderWay(v1, 0);
    hide Inv;
    RunKeeps(w, steps);
    if Legal(v1, more) {
      LeftBehindForEver(v1, more, 0);
    }
  }

  /**
   * A renewal is claimed and its subscription deleted: somebody is at work on the order, and still no run
   * pays it, unless a migration brings the subscription back.
   */
  lemma DeletedRenewalIsNeverPaid(w: World, n: NewOrder)
    requires Initial(w) && RefersToRows(w.books, n) && n.promo.None? && n.renew.Some?
    requires Extendable(w.books, n.renew.value)
    ensures var steps := [PlaceOrder(0, n)] + [ClaimOrder(1, 0)] + [DeleteSub(n.renew.value)];
            && Legal(w, steps)
            && var v := Run(w, steps);
               |v.books.orders| == 1 && v.books.orders[0].status == Processing && UnderWay(v, 0) && !CanBePaid(v, 0)
  {
    var steps := [PlaceOrder(0, n)] + [ClaimOrder(1, 0)] + [DeleteSub(n.renew.value)];
    InitialInv(w);
    Next(w, [], w, PlaceOrder(0, n));
    assert [] + [PlaceOrder(0, n)] == [PlaceOrder(0, n)];
    var v1 := Do(w, PlaceOrder(0, n));
    Next(w, [PlaceOrder(0, n)], v1, ClaimOrder(1, 0));
    var v2 := Do(v1, ClaimOrder(1, 0));
    Next(w, [PlaceOrder(0, n)] + [ClaimOrder(1, 0)], v2, DeleteSub(n.renew.value));
    var v := Do(v2, DeleteSub(n.renew.value));
    RunKeeps(w, steps);
    assert v.procs == map[1 := Fulfilment(0, Claimed)] && 1 in v.procs;
    assert !Extendable(v.books, n.renew.value) && v.books.orders[0].renew == n.renew;
    hide Inv;
    PayableIffWorkable(v, 0);
  }

  // A sale from placing to payment

  function SaleSteps(order: nat, n: NewOrder, sub: Sub, now: int, id: nat): seq<Step> {
    OpeningSteps(order, n, sub) + [Finalize(1, now, id)]
  }

  function Sold(w: World, n: NewOrder, sub: Sub, now: int, id: nat): World {
    var order := |w.books.orders|;
    var v := Opened(w, n, sub);
    World(FinalizePaid(v.books, order, |w.books.subs|, now, id).value, map[], v.issuances)
  }

  lemma Sale(w: World, n: NewOrder, sub: Sub, now: int, id: nat)
    requires w.procs == map[] && Plain(w.books, n) && sub.status == Active
    ensures Legal(w, SaleSteps(|w.books.orders|, n, sub, now, id))
    ensures Run(w, SaleSteps(|w.books.orders|, n, sub, now, id)) == Sold(w, n, sub, now, id)
    ensures var b := Sold(w, n, sub, now, id).books;
            && Sold(w, n, sub, now, id).procs == map[]
            && |b.orders| == |w.books.orders| + 1 && Plain(b, n) && b.digest == w.books.digest
            && b.ledger == Append(w.books.digest, w.books.ledger, ChargeFor(|w.books.orders|, FreshOrder(n)), now, id)
  {
    hide Append;
    var v := Opened(w, n, sub);
    Opening(w, n, sub);
    Next(w, OpeningSteps(|w.books.orders|, n, sub), v, Finalize(1, now, id));
    assert v.procs - {1} == map[];
  }

  /** A failure callback after the payment: the order is paid and its payment failed. */
  lemma PaidWithFailedPayment(w: World, n: NewOrder, sub: Sub, now: int, id: nat)
    requires Initial(w) && Plain(w.books, n) && sub.status == Active
    ensures var steps := SaleSteps(0, n, sub, now, id) + [Fail(2, 0)];
            && Legal(w, steps)
            && var b := Run(w, steps).books;
               |b.orders| == 1 && b.orders[0].status == Paid && b.payments == [Payment(0, Failure)]
  {
    Sale(w, n, sub, now, id);
    hide Append;
    Next(w, SaleSteps(0, n, sub, now, id), Sold(w, n, sub, now, id), Fail(2, 0));
  }

  function TiedSteps(n: NewOrder, sub: Sub, now: int, id: nat): seq<Step> {
    SaleSteps(0, n, sub, now, id + 1) + SaleSteps(1, n, sub, now, id) + SaleSteps(2, n, sub, now + 1, 0)
  }

  lemma ThreeSales(w: World, n: NewOrder, sub: Sub, now: int, id: nat)
    requires Initial(w) && Plain(w.books, n) && sub.status == Active
    ensures Legal(w, TiedSteps(n, sub, now, id))
    ensures Run(w, TiedSteps(n, sub, now, id)).books.ledger
            == Append(w.books.digest, TiedLedger(w, n, now, id), ChargeFor(2, FreshOrder(n)), now + 1, 0)
  {
    hide Append, SaleSteps, Sold, Plain, Legal, Run;
    var v1 := Sold(w, n, sub, now, id + 1);
    var v2 := Sold(v1, n, sub, now, id);
    Sale(w, n, sub, now, id + 1);
    Sale(v1, n, sub, now, id);
    Sale(v2, n, sub, now + 1, 0);
    RunConcat(w, SaleSteps(0, n, sub, now, id + 1), SaleSteps(1, n, sub, now, id));
    RunConcat(w, SaleSteps(0, n, sub, now, id + 1) + SaleSteps(1, n, sub, now, id), SaleSteps(2, n, sub, now + 1, 0));
  }

  /**
   * Three purchases of one user, the first two finalized at the same time and in the wrong order of their
   * random ids: the user's ledger is no chain any more, or it exhibits a collision.
   */
  lemma TiedPaymentsBreakChain(w: World, n: NewOrder, sub: Sub, now: int, id: nat)
    requires Initial(w) && Plain(w.books, n) && sub.status == Active && IsDigest(w.books.digest) && '|' !in n.currency
    ensures Legal(w, TiedSteps(n, sub, now, id))
    ensures var chain := ChainOf(Run(w, TiedSteps(n, sub, now, id)).books.ledger, n.user);
            !Verifies(w.books.digest, chain)
            || Collision(w.books.digest, ChainOf(TiedLedger(w, n, now, id), n.user),
                         ChainOf(TiedLedger(w, n, now, id), n.user))
  {
    hide Append, TiedLedger, TiedSteps, ChainOf, Verifies, Collision, Legal, Run;
    ThreeSales(w, n, sub, now, id);
    TiedLedgerVerifies(w, n, now, id);
    AppendKeepsChain(w.books.digest, TiedLedger(w, n, now, id), ChargeFor(2, FreshOrder(n)), now + 1, 0);
  }

  function TiedLedger(w: World, n: NewOrder, now: int, id: nat): seq<Entry> {
    var d := w.books.digest;
    Append(d, Append(d, w.books.ledger, ChargeFor(0, FreshOrder(n)), now, id + 1), ChargeFor(1, FreshOrder(n)), now, id)
  }

  lemma TiedLedgerVerifies(w: World, n: NewOrder, now: int, id: nat)
    requires w.books.ledger == [] && IsDigest(w.books.digest) && '|' !in n.currency
    ensures var rows := TiedLedger(w, n, now, id);
            && Verifies(w.books.digest, ChainOf(rows, n.user)) && AllClean(ChainOf(rows, n.user))
            && Newest(rows, n.user) != LastWritten(rows, n.user)
  {
    var d := w.books.digest;
    var one := Append(d, [], ChargeFor(0, FreshOrder(n)), now, id + 1);
    AppendInOrder(d, [], ChargeFor(0, FreshOrder(n)), now, id + 1, n.user);
    assert InOrder(one, n.user);
    InOrderMeans(one, n.user);
    NewestIsHead(one, n.user);
    AppendExtends(d, one, ChargeFor(1, FreshOrder(n)), now, id, n.user);
    AppendIsNewest(d, one, ChargeFor(1, FreshOrder(n)), now, id);
    assert !Latest(one, n.user, now, id) by {
      assert one[0].body.user == n.user && one[0].createdAt == now && one[0].id == id + 1;
    }
    var rows := TiedLedger(w, n, now, id);
    ChainAppend([], one[0], n.user);
    ChainAppend(one, rows[1], n.user);
    assert ChainOf(rows, n.user) == [rows[0], rows[1]];
  }
}

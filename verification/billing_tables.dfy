/** The billing tables, and each transaction as a function from tables to tables. */
module BillingTables {
  import opened Text
  import opened Subscriptions
  import opened Ledger
  import opened Pricing
  import opened Renewals

  // A row is identified by its position in its table; amounts are in hundredths.

  datatype OrderStatus = New | WaitPayment | Processing | Paid | Failed | Lapsed | Cancelled | Refunded

  datatype Order = Order(
    user: nat, plan: nat, country: nat, protocol: Protocol, amount: int, discount: int, currency: string,
    promo: Option<nat>, renew: Option<nat>, placedAt: int,
    status: OrderStatus, subscription: Option<nat>, paidAt: Option<int>)

  datatype Plan = Plan(price: int, currency: string, days: int, active: bool)

  /** The tables that orders only refer to: so many users and countries, and the plans. */
  datatype Catalogue = Catalogue(users: nat, countries: nat, plans: seq<Plan>)

  datatype PaymentStatus = Created | Pending | Success | Failure

  datatype Payment = Payment(order: nat, status: PaymentStatus)

  datatype Redemption = Redemption(promo: nat, user: nat, order: nat)

  /** digest is hex-encoded SHA-256. */
  datatype Books = Books(
    orders: seq<Order>, payments: seq<Payment>, promos: seq<Promo>, redemptions: seq<Redemption>,
    ledger: seq<Entry>, subs: seq<Sub>, catalogue: Catalogue, digest: string -> string)

  datatype NewOrder = NewOrder(
    user: nat, plan: nat, country: nat, protocol: Protocol, amount: int, discount: int, currency: string,
    promo: Option<nat>, renew: Option<nat>, placedAt: int)

  datatype OrderResult = Ordered(books: Books) | PromoInvalid | PromoUsed | Rejected

  function FreshOrder(n: NewOrder): Order {
    Order(n.user, n.plan, n.country, n.protocol, n.amount, n.discount, n.currency, n.promo, n.renew, n.placedAt,
          WaitPayment, None, None)
  }

  /** The WHERE clause of the promo update. */
  predicate Redeemable(p: Promo) {
    p.active && (p.maxUses.None? || p.usedCount < p.maxUses.value)
  }

  /** The unique index on promo and user. */
  predicate HasRedeemed(redemptions: seq<Redemption>, promo: nat, user: nat) {
    exists i :: 0 <= i < |redemptions| && redemptions[i].promo == promo && redemptions[i].user == user
  }

  /** The rows that an order may refer to. */
  predicate RefersToRows(b: Books, n: NewOrder) {
    && n.user < b.catalogue.users && n.country < b.catalogue.countries && n.plan < |b.catalogue.plans|
    && (n.promo.Some? ==> n.promo.value < |b.promos|) && (n.renew.Some? ==> n.renew.value < |b.subs|)
  }

  function CreateOrder(b: Books, n: NewOrder): OrderResult {
    if !RefersToRows(b, n) then Rejected
    else
      var orders := b.orders + [FreshOrder(n)];
      match n.promo
      case None => Ordered(b.(orders := orders))
      case Some(p) =>
        if !Redeemable(b.promos[p]) then PromoInvalid
        else if HasRedeemed(b.redemptions, p, n.user) then PromoUsed
        else
          Ordered(b.(
            orders := orders,
            promos := b.promos[p := b.promos[p].(usedCount := b.promos[p].usedCount + 1)],
            redemptions := b.redemptions + [Redemption(p, n.user, |b.orders|)]))
  }

  /** ClaimForProvisioning succeeds on exactly the orders that wait for payment. */
  predicate Claimable(b: Books, order: nat) {
    order < |b.orders| && b.orders[order].status == WaitPayment
  }

  function Claim(b: Books, order: nat): Books
    requires Claimable(b, order)
  {
    b.(orders := b.orders[order := b.orders[order].(status := Processing)])
  }

  predicate Unsettled(b: Books, order: nat) {
    order < |b.orders| && (b.orders[order].status == WaitPayment || b.orders[order].status == Processing)
  }

  function SetPayments(payments: seq<Payment>, order: nat, status: PaymentStatus): (r: seq<Payment>)
    ensures |r| == |payments|
  {
    seq(|payments|, i requires 0 <= i < |payments| =>
      if payments[i].order == order then payments[i].(status := status) else payments[i])
  }

  function ChargeFor(order: nat, o: Order): Body {
    Body("charge", o.amount, o.currency, "order", order, o.user)
  }

  function FinalizePaid(b: Books, order: nat, sub: nat, now: int, id: nat): Option<Books> {
    if !Unsettled(b, order) || sub >= |b.subs| then None
    else
      var o := b.orders[order];
      Some(b.(
        orders := b.orders[order := o.(status := Paid, subscription := Some(sub), paidAt := Some(now))],
        payments := SetPayments(b.payments, order, Success),
        ledger := Append(b.digest, b.ledger, ChargeFor(order, o), now, id)))
  }

  function MarkFailed(b: Books, order: nat): Books {
    b.(orders := if Unsettled(b, order) then b.orders[order := b.orders[order].(status := Failed)] else b.orders,
       payments := SetPayments(b.payments, order, Failure))
  }

  function ExtendSubscription(b: Books, sub: nat, days: int, now: int): Option<Books> {
    if sub >= |b.subs| then None
    else
      match Extend(b.subs[sub], now, days)
      case None => None
      case Some(s) => Some(b.(subs := b.subs[sub := s]))
  }

  function SweepAll(subs: seq<Sub>, now: int, grace: int): (r: seq<Sub>)
    ensures |r| == |subs|
  {
    seq(|subs|, i requires 0 <= i < |subs| => Swept(subs[i], now, grace))
  }

  // How an order may change

  /** wait_payment becomes processing; both become paid or failed, and those are never left. */
  predicate MayFollow(a: OrderStatus, b: OrderStatus) {
    || a == b
    || (a == WaitPayment && (b == Processing || b == Paid || b == Failed))
    || (a == Processing && (b == Paid || b == Failed))
  }

  /** What was ordered is fixed, the status only moves forward, and a paid order never changes at all. */
  predicate OrderKept(o: Order, o': Order) {
    && o' == o.(status := o'.status, subscription := o'.subscription, paidAt := o'.paidAt)
    && MayFollow(o.status, o'.status)
    && (o.status == Paid ==> o' == o)
  }

  ghost predicate OrdersKept(b: Books, b': Books) {
    && |b.orders| <= |b'.orders|
    && forall i :: 0 <= i < |b.orders| ==> OrderKept(b.orders[i], b'.orders[i])
  }

  // Promo accounting

  function OrdersWith(orders: seq<Order>, promo: nat): nat {
    if orders == [] then 0
    else OrdersWith(orders[..|orders| - 1], promo) + if orders[|orders| - 1].promo == Some(promo) then 1 else 0
  }

  function RedemptionsOf(redemptions: seq<Redemption>, promo: nat): nat {
    if redemptions == [] then 0
    else
      RedemptionsOf(redemptions[..|redemptions| - 1], promo)
      + if redemptions[|redemptions| - 1].promo == promo then 1 else 0
  }

  function Cap(maxUses: int): nat {
    if maxUses < 0 then 0 else maxUses
  }

  ghost predicate PromosExact(b: Books) {
    forall p :: 0 <= p < |b.promos| ==>
      && b.promos[p].usedCount == RedemptionsOf(b.redemptions, p) == OrdersWith(b.orders, p)
      && (b.promos[p].maxUses.Some? ==> b.promos[p].usedCount <= Cap(b.promos[p].maxUses.value))
  }

  ghost predicate NobodyTwice(redemptions: seq<Redemption>) {
    forall i, j :: 0 <= i < j < |redemptions| ==>
      redemptions[i].promo != redemptions[j].promo || redemptions[i].user != redemptions[j].user
  }

  /** Every redemption belongs to the order of the same user that carries the promo, one to an order. */
  ghost predicate RedemptionsMatch(b: Books) {
    && (forall i :: 0 <= i < |b.redemptions| ==> RedemptionMatches(b, b.redemptions[i]))
    && (forall i, j :: 0 <= i < j < |b.redemptions| ==> b.redemptions[i].order != b.redemptions[j].order)
    && (forall o :: 0 <= o < |b.orders| && b.orders[o].promo.Some? ==>
          b.orders[o].promo.value < |b.promos| && Redeemed(b, o))
  }

  ghost predicate Redeemed(b: Books, o: nat)
    requires o < |b.orders| && b.orders[o].promo.Some?
  {
    Redemption(b.orders[o].promo.value, b.orders[o].user, o) in b.redemptions
  }

  predicate RedemptionMatches(b: Books, r: Redemption) {
    r.promo < |b.promos| && r.order < |b.orders|
    && b.orders[r.order].promo == Some(r.promo) && b.orders[r.order].user == r.user
  }

  ghost predicate PromosOk(b: Books) {
    PromosExact(b) && NobodyTwice(b.redemptions) && RedemptionsMatch(b)
  }

  lemma OrdersWithAppend(orders: seq<Order>, o: Order, promo: nat)
    ensures OrdersWith(orders + [o], promo) == OrdersWith(orders, promo) + if o.promo == Some(promo) then 1 else 0
  {
    assert (orders + [o])[..|orders|] == orders;
  }

  lemma RedemptionsAppend(redemptions: seq<Redemption>, r: Redemption, promo: nat)
    ensures RedemptionsOf(redemptions + [r], promo)
            == RedemptionsOf(redemptions, promo) + if r.promo == promo then 1 else 0
  {
    assert (redemptions + [r])[..|redemptions|] == redemptions;
  }

  lemma {:induction false} OrdersWithKept(orders: seq<Order>, orders': seq<Order>, promo: nat)
    requires |orders| == |orders'| && forall i :: 0 <= i < |orders| ==> orders'[i].promo == orders[i].promo
    ensures OrdersWith(orders', promo) == OrdersWith(orders, promo)
  {
    if orders != [] {
      OrdersWithKept(orders[..|orders| - 1], orders'[..|orders| - 1], promo);
    }
  }

  lemma CreateOrderCounts(b: Books, n: NewOrder)
    requires PromosOk(b) && CreateOrder(b, n).Ordered?
    ensures PromosExact(CreateOrder(b, n).books)
  {
    var b' := CreateOrder(b, n).books;
    forall p: nat
      ensures OrdersWith(b'.orders, p) == OrdersWith(b.orders, p) + if n.promo == Some(p) then 1 else 0
    {
      OrdersWithAppend(b.orders, FreshOrder(n), p);
    }
    if n.promo.Some? {
      forall p: nat
        ensures RedemptionsOf(b'.redemptions, p)
                == RedemptionsOf(b.redemptions, p) + if n.promo == Some(p) then 1 else 0
      {
        RedemptionsAppend(b.redemptions, Redemption(n.promo.value, n.user, |b.orders|), p);
      }
    }
    hide OrdersWith, RedemptionsOf, RedemptionsMatch, NobodyTwice, HasRedeemed;
  }

  lemma CreateOrderRedemptions(b: Books, n: NewOrder)
    requires PromosOk(b) && CreateOrder(b, n).Ordered?
    ensures RedemptionsMatch(CreateOrder(b, n).books) && NobodyTwice(CreateOrder(b, n).books.redemptions)
  {
    var b' := CreateOrder(b, n).books;
    hide PromosExact, Redeemable;
    assert forall i :: 0 <= i < |b.redemptions| ==> RedemptionMatches(b, b.redemptions[i]);
    forall o | 0 <= o < |b'.orders| && b'.orders[o].promo.Some?
      ensures b'.orders[o].promo.value < |b'.promos| && Redeemed(b', o)
    {
      if o < |b.orders| {
        assert Redeemed(b, o);
      } else {
        assert b'.redemptions[|b.redemptions|] == Redemption(n.promo.value, n.user, o);
      }
    }
  }

  lemma CreateOrderPromos(b: Books, n: NewOrder)
    requires PromosOk(b) && CreateOrder(b, n).Ordered?
    ensures PromosOk(CreateOrder(b, n).books)
  {
    CreateOrderCounts(b, n);
    CreateOrderRedemptions(b, n);
  }

  /** The other transactions do not change who ordered what with which promo. */
  lemma PromosFrame(b: Books, b': Books)
    requires PromosOk(b) && OrdersKept(b, b') && |b'.orders| == |b.orders|
    requires b'.promos == b.promos && b'.redemptions == b.redemptions
    ensures PromosOk(b')
  {
    forall p: nat ensures OrdersWith(b'.orders, p) == OrdersWith(b.orders, p) {
      OrdersWithKept(b.orders, b'.orders, p);
    }
    hide OrdersWith, RedemptionsOf;
  }

  /** An order that carries a promo is created exactly when the promo is redeemable and new to the user. */
  lemma PromoGuard(b: Books, n: NewOrder, p: nat)
    requires PromosOk(b) && RefersToRows(b, n) && n.promo == Some(p)
    ensures CreateOrder(b, n).Ordered?
            <==> && b.promos[p].active
                 && (b.promos[p].maxUses.Some? ==> OrdersWith(b.orders, p) < b.promos[p].maxUses.value)
                 && forall o :: 0 <= o < |b.orders| && b.orders[o].promo == Some(p) ==> b.orders[o].user != n.user
  {
    forall o | 0 <= o < |b.orders| && b.orders[o].promo == Some(p)
      ensures HasRedeemed(b.redemptions, p, b.orders[o].user)
    {
      assert Redeemed(b, o);
    }
    if HasRedeemed(b.redemptions, p, n.user) {
      var i :| 0 <= i < |b.redemptions| && b.redemptions[i].promo == p && b.redemptions[i].user == n.user;
      assert RedemptionMatches(b, b.redemptions[i]);
    }
  }

  // The ledger and the paid orders

  function Amount(o: Order, user: nat, currency: string): int {
    if o.status == Paid && o.user == user && o.currency == currency then o.amount else 0
  }

  /** What a user paid in a currency, by the orders. */
  function PaidTotal(orders: seq<Order>, user: nat, currency: string): int {
    if orders == [] then 0
    else PaidTotal(orders[..|orders| - 1], user, currency) + Amount(orders[|orders| - 1], user, currency)
  }

  function Charged(b: Body, user: nat, currency: string): int {
    if b.kind == "charge" && b.user == user && b.currency == currency then b.amount else 0
  }

  /** What a user paid in a currency, by the ledger. */
  function ChargeTotal(ledger: seq<Entry>, user: nat, currency: string): int {
    if ledger == [] then 0
    else
      ChargeTotal(ledger[..|ledger| - 1], user, currency) + Charged(ledger[|ledger| - 1].body, user, currency)
  }

  predicate IsPaid(b: Books, order: nat) {
    order < |b.orders| && b.orders[order].status == Paid
  }

  /** Every entry is the charge of a paid order, and every paid order has exactly one entry. */
  ghost predicate LedgerMatches(b: Books) {
    && (forall i :: 0 <= i < |b.ledger| ==> EntryMatches(b, b.ledger[i]))
    && (forall i, j :: 0 <= i < j < |b.ledger| ==> b.ledger[i].body.ref != b.ledger[j].body.ref)
    && (forall o :: 0 <= o < |b.orders| && b.orders[o].status == Paid ==> HasEntry(b.ledger, o))
  }

  predicate EntryMatches(b: Books, e: Entry) {
    IsPaid(b, e.body.ref) && e.body == ChargeFor(e.body.ref, b.orders[e.body.ref])
  }

  ghost predicate HasEntry(ledger: seq<Entry>, order: nat) {
    exists i :: 0 <= i < |ledger| && ledger[i].body.ref == order
  }

  ghost predicate TotalsAgree(b: Books) {
    forall user: nat, currency: string ::
      ChargeTotal(b.ledger, user, currency) == PaidTotal(b.orders, user, currency)
  }

  /** A paid order has a subscription and a time of payment, and no other order has. */
  ghost predicate OrdersShaped(b: Books) {
    forall o :: 0 <= o < |b.orders| ==> OrderShaped(b, b.orders[o])
  }

  predicate OrderShaped(b: Books, o: Order) {
    && o.status in {WaitPayment, Processing, Paid, Failed}
    && (o.status == Paid <==> o.subscription.Some?) && (o.status == Paid <==> o.paidAt.Some?)
    && (o.subscription.Some? ==> o.subscription.value < |b.subs|)
    && (o.renew.Some? ==> o.renew.value < |b.subs|)
    && o.user < b.catalogue.users && o.country < b.catalogue.countries && o.plan < |b.catalogue.plans|
  }

  ghost predicate BooksOk(b: Books) {
    PromosOk(b) && LedgerMatches(b) && TotalsAgree(b) && OrdersShaped(b)
  }

  lemma {:induction false} PaidTotalUpdate(orders: seq<Order>, i: nat, o: Order, user: nat, currency: string)
    requires i < |orders|
    ensures PaidTotal(orders[i := o], user, currency)
            == PaidTotal(orders, user, currency) - Amount(orders[i], user, currency) + Amount(o, user, currency)
  {
    var last := |orders| - 1;
    if i < last {
      PaidTotalUpdate(orders[..last], i, o, user, currency);
      assert orders[i := o][..last] == orders[..last][i := o];
    } else {
      assert orders[i := o][..last] == orders[..last];
    }
  }

  lemma PaidTotalAppend(orders: seq<Order>, o: Order, user: nat, currency: string)
    ensures PaidTotal(orders + [o], user, currency) == PaidTotal(orders, user, currency) + Amount(o, user, currency)
  {
    assert (orders + [o])[..|orders|] == orders;
  }

  lemma ChargeTotalAppend(ledger: seq<Entry>, e: Entry, user: nat, currency: string)
    ensures ChargeTotal(ledger + [e], user, currency)
            == ChargeTotal(ledger, user, currency) + Charged(e.body, user, currency)
  {
    assert (ledger + [e])[..|ledger|] == ledger;
  }

  lemma CreateOrderKeeps(b: Books, n: NewOrder)
    requires BooksOk(b) && CreateOrder(b, n).Ordered?
    ensures BooksOk(CreateOrder(b, n).books) && OrdersKept(b, CreateOrder(b, n).books)
  {
    var b' := CreateOrder(b, n).books;
    CreateOrderPromos(b, n);
    forall user: nat, currency: string
      ensures PaidTotal(b'.orders, user, currency) == PaidTotal(b.orders, user, currency)
    {
      PaidTotalAppend(b.orders, FreshOrder(n), user, currency);
    }
    hide PromosOk, PaidTotal, ChargeTotal, HasRedeemed, Redeemable;
    assert forall i :: 0 <= i < |b.orders| ==> b'.orders[i] == b.orders[i];
    assert LedgerMatches(b');
    assert OrdersShaped(b');
  }

  /** Moving an unpaid order to another unpaid status. */
  lemma StatusKeeps(b: Books, order: nat, status: OrderStatus, payments: seq<Payment>)
    requires BooksOk(b) && Unsettled(b, order) && MayFollow(b.orders[order].status, status)
    requires status == Processing || status == Failed
    ensures var b' := b.(orders := b.orders[order := b.orders[order].(status := status)], payments := payments);
            BooksOk(b') && OrdersKept(b, b')
  {
    var b' := b.(orders := b.orders[order := b.orders[order].(status := status)], payments := payments);
    PromosFrame(b, b');
    forall user: nat, currency: string
      ensures PaidTotal(b'.orders, user, currency) == PaidTotal(b.orders, user, currency)
    {
      PaidTotalUpdate(b.orders, order, b'.orders[order], user, currency);
    }
    hide PromosOk, PaidTotal, ChargeTotal;
    assert OrderShaped(b, b.orders[order]);
    assert LedgerMatches(b');
    assert OrdersShaped(b');
  }

  lemma FinalizeKeeps(b: Books, order: nat, sub: nat, now: int, id: nat)
    requires BooksOk(b) && FinalizePaid(b, order, sub, now, id).Some?
    ensures var b' := FinalizePaid(b, order, sub, now, id).value;
            BooksOk(b') && OrdersKept(b, b')
  {
    var b' := FinalizePaid(b, order, sub, now, id).value;
    assert b.ledger <= b'.ledger;
    PromosFrame(b, b');
    FinalizeTotals(b, order, sub, now, id);
    FinalizeMatches(b, order, sub, now, id);
    hide PromosOk, LedgerMatches, TotalsAgree, Append;
    assert OrdersShaped(b');
  }

  lemma FinalizeTotals(b: Books, order: nat, sub: nat, now: int, id: nat)
    requires TotalsAgree(b) && FinalizePaid(b, order, sub, now, id).Some?
    ensures TotalsAgree(FinalizePaid(b, order, sub, now, id).value)
  {
    var b' := FinalizePaid(b, order, sub, now, id).value;
    forall user: nat, currency: string
      ensures ChargeTotal(b'.ledger, user, currency) == PaidTotal(b'.orders, user, currency)
    {
      PaidTotalUpdate(b.orders, order, b'.orders[order], user, currency);
      ChargeTotalAppend(b.ledger, b'.ledger[|b.ledger|], user, currency);
    }
  }

  lemma FinalizeMatches(b: Books, order: nat, sub: nat, now: int, id: nat)
    requires LedgerMatches(b) && FinalizePaid(b, order, sub, now, id).Some?
    ensures LedgerMatches(FinalizePaid(b, order, sub, now, id).value)
  {
    var b' := FinalizePaid(b, order, sub, now, id).value;
    var n := |b.ledger|;
    assert b'.ledger[n].body == ChargeFor(order, b.orders[order]);
    forall i | 0 <= i < n ensures EntryMatches(b', b'.ledger[i]) && b'.ledger[i].body.ref != order {
      assert EntryMatches(b, b.ledger[i]);
    }
    forall o | 0 <= o < |b'.orders| && b'.orders[o].status == Paid ensures HasEntry(b'.ledger, o) {
      if o == order {
        assert b'.ledger[n].body.ref == o;
      } else {
        var i :| 0 <= i < n && b.ledger[i].body.ref == o;
        assert b'.ledger[i].body.ref == o;
      }
    }
  }

  /** Other subscriptions come and change without touching what the books say about orders. */
  lemma SubsKeep(b: Books, subs: seq<Sub>)
    requires BooksOk(b) && |b.subs| <= |subs|
    ensures BooksOk(b.(subs := subs)) && OrdersKept(b, b.(subs := subs))
  {
    var b' := b.(subs := subs);
    PromosFrame(b, b');
    hide PromosOk;
    forall o | 0 <= o < |b.orders| ensures OrderShaped(b', b'.orders[o]) {
      assert OrderShaped(b, b.orders[o]);
    }
  }

  lemma PaymentsKeep(b: Books, payments: seq<Payment>)
    requires BooksOk(b)
    ensures BooksOk(b.(payments := payments)) && OrdersKept(b, b.(payments := payments))
  {
    PromosFrame(b, b.(payments := payments));
  }

  lemma NothingRedeemedYet(b: Books, p: nat)
    requires PromosOk(b) && p >= |b.promos|
    ensures OrdersWith(b.orders, p) == 0 && RedemptionsOf(b.redemptions, p) == 0
  {
    NoOrdersWith(b.orders, p);
    forall i | 0 <= i < |b.redemptions| ensures b.redemptions[i].promo != p {
      assert RedemptionMatches(b, b.redemptions[i]);
    }
    NoRedemptionsOf(b.redemptions, p);
  }

  lemma {:induction false} NoOrdersWith(orders: seq<Order>, p: nat)
    requires forall o :: 0 <= o < |orders| ==> orders[o].promo != Some(p)
    ensures OrdersWith(orders, p) == 0
  {
    if orders != [] {
      NoOrdersWith(orders[..|orders| - 1], p);
    }
  }

  lemma {:induction false} NoRedemptionsOf(redemptions: seq<Redemption>, p: nat)
    requires forall i :: 0 <= i < |redemptions| ==> redemptions[i].promo != p
    ensures RedemptionsOf(redemptions, p) == 0
  {
    if redemptions != [] {
      NoRedemptionsOf(redemptions[..|redemptions| - 1], p);
    }
  }

  lemma AddPromoKeeps(b: Books, p: Promo)
    requires BooksOk(b) && p.usedCount == 0
    ensures BooksOk(b.(promos := b.promos + [p])) && OrdersKept(b, b.(promos := b.promos + [p]))
  {
    hide OrdersWith, RedemptionsOf;
    var b' := b.(promos := b.promos + [p]);
    NothingRedeemedYet(b, |b.promos|);
    forall i | 0 <= i < |b.redemptions| ensures RedemptionMatches(b', b'.redemptions[i]) {
      assert RedemptionMatches(b, b.redemptions[i]);
    }
    forall o | 0 <= o < |b.orders| && b.orders[o].promo.Some?
      ensures b.orders[o].promo.value < |b'.promos| && Redeemed(b', o)
    {
      assert Redeemed(b, o);
    }
    assert PromosExact(b');
    assert LedgerMatches(b');
    assert OrdersShaped(b');
  }

  /** Users, countries and plans may be added. */
  predicate CatalogueGrows(c: Catalogue, c': Catalogue) {
    c.users <= c'.users && c.countries <= c'.countries && c.plans <= c'.plans
  }

  lemma CatalogueKeeps(b: Books, c: Catalogue)
    requires BooksOk(b) && CatalogueGrows(b.catalogue, c)
    ensures BooksOk(b.(catalogue := c)) && OrdersKept(b, b.(catalogue := c))
  {
    var b' := b.(catalogue := c);
    PromosFrame(b, b');
    hide PromosOk;
    forall o | 0 <= o < |b.orders| ensures OrderShaped(b', b'.orders[o]) {
      assert OrderShaped(b, b.orders[o]);
    }
  }

  // Payments

  /** The payments of paid orders are successful, and those of failed orders failed. */
  ghost predicate Mirrored(b: Books) {
    forall i :: 0 <= i < |b.payments| ==> PaymentMirrors(b, b.payments[i])
  }

  predicate PaymentMirrors(b: Books, p: Payment) {
    p.order < |b.orders|
    && (b.orders[p.order].status == Paid ==> p.status == Success)
    && (b.orders[p.order].status == Failed ==> p.status == Failure)
  }

  predicate HasPayment(b: Books, order: nat) {
    exists i :: 0 <= i < |b.payments| && b.payments[i].order == order
  }

  /** A failure keeps payments in line with orders, unless it comes for a paid order that has one. */
  lemma FailureMirrors(b: Books, order: nat)
    requires OrdersShaped(b) && Mirrored(b) && order < |b.orders|
    ensures Mirrored(MarkFailed(b, order)) <==> !(b.orders[order].status == Paid && HasPayment(b, order))
  {
    var b' := MarkFailed(b, order);
    assert OrderShaped(b, b.orders[order]);
    forall i | 0 <= i < |b.payments| ensures
      b'.payments[i] == if b.payments[i].order == order then b.payments[i].(status := Failure) else b.payments[i]
    {
    }
    forall i | 0 <= i < |b.payments| && b.payments[i].order != order ensures PaymentMirrors(b', b'.payments[i]) {
      assert PaymentMirrors(b, b.payments[i]);
    }
    if b.orders[order].status == Paid && HasPayment(b, order) {
      var i :| 0 <= i < |b.payments| && b.payments[i].order == order;
      assert !PaymentMirrors(b', b'.payments[i]);
    }
  }

  lemma FinalizeMirrors(b: Books, order: nat, sub: nat, now: int, id: nat)
    requires Mirrored(b) && FinalizePaid(b, order, sub, now, id).Some?
    ensures Mirrored(FinalizePaid(b, order, sub, now, id).value)
  {
    var b' := FinalizePaid(b, order, sub, now, id).value;
    hide Append;
    forall i | 0 <= i < |b.payments| ensures PaymentMirrors(b', b'.payments[i]) {
      assert PaymentMirrors(b, b.payments[i]);
    }
  }

  lemma RegisterMirrors(b: Books, order: nat, status: PaymentStatus)
    requires Mirrored(b) && order < |b.orders|
    ensures Mirrored(b.(payments := b.payments + [Payment(order, status)]))
            <==> PaymentMirrors(b, Payment(order, status))
  {
    var b' := b.(payments := b.payments + [Payment(order, status)]);
    assert b'.payments[|b.payments|] == Payment(order, status);
    forall i | 0 <= i < |b.payments| ensures PaymentMirrors(b', b'.payments[i]) {
      assert PaymentMirrors(b, b.payments[i]);
    }
  }

  lemma OrdersMirror(b: Books, b': Books)
    requires Mirrored(b) && b'.payments == b.payments && |b.orders| <= |b'.orders|
    requires forall i :: 0 <= i < |b.orders| ==>
                           b'.orders[i].status == b.orders[i].status
                           || (b'.orders[i].status != Paid && b'.orders[i].status != Failed)
    ensures Mirrored(b')
  {
    forall i | 0 <= i < |b.payments| ensures PaymentMirrors(b', b'.payments[i]) {
      assert PaymentMirrors(b, b.payments[i]);
    }
  }
}

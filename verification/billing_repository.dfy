/** The billing repository: SQL transactions over mutable tables. */
module BillingRepository {
  import opened Text
  import opened Subscriptions
  import opened Ledger
  import opened Pricing
  import opened Renewals
  import opened BillingTables

  datatype Placed = PlacedOrder(order: nat) | ErrPromoInvalid | ErrPromoUsed | ErrRejected

  class Repository {
    var orders: seq<Order>
    var payments: seq<Payment>
    var promos: seq<Promo>
    var redemptions: seq<Redemption>
    var ledger: seq<Entry>
    var subs: seq<Sub>
    var catalogue: Catalogue
    const digest: string -> string

    constructor (digest: string -> string, subs: seq<Sub>, catalogue: Catalogue)
      ensures Tables() == Books([], [], [], [], [], subs, catalogue, digest)
    {
      orders, payments, promos, redemptions, ledger := [], [], [], [], [];
      this.subs, this.catalogue, this.digest := subs, catalogue, digest;
    }

    function Tables(): Books
      reads this
    {
      Books(orders, payments, promos, redemptions, ledger, subs, catalogue, digest)
    }

    /** CreateOrder: nothing of a transaction that ends in an error stays. */
    method CreateOrder(n: NewOrder) returns (r: Placed)
      modifies this
      ensures match BillingTables.CreateOrder(old(Tables()), n)
              case Ordered(books) => r == PlacedOrder(|old(orders)|) && Tables() == books
              case PromoInvalid => r == ErrPromoInvalid && Tables() == old(Tables())
              case PromoUsed => r == ErrPromoUsed && Tables() == old(Tables())
              case Rejected => r == ErrRejected && Tables() == old(Tables())
      ensures r == ErrRejected <==>
                || n.user >= old(catalogue).users || n.country >= old(catalogue).countries
                || n.plan >= |old(catalogue).plans| || (n.promo.Some? && n.promo.value >= |old(promos)|)
                || (n.renew.Some? && n.renew.value >= |old(subs)|)
      ensures r != ErrRejected ==>
                (r == ErrPromoInvalid <==>
                   && n.promo.Some?
                   && var p := old(promos)[n.promo.value];
                      !p.active || (p.maxUses.Some? && p.usedCount >= p.maxUses.value))
      ensures r == ErrPromoUsed ==>
                n.promo.Some? && exists i :: 0 <= i < |old(redemptions)| && old(redemptions)[i].user == n.user
                                             && old(redemptions)[i].promo == n.promo.value
      ensures r.PlacedOrder? ==>
                && r.order == |old(orders)| && |orders| == r.order + 1 && orders[..r.order] == old(orders)
                && var o := orders[r.order];
                   && o.user == n.user && o.plan == n.plan && o.country == n.country && o.protocol == n.protocol
                   && o.amount == n.amount && o.discount == n.discount && o.currency == n.currency
                   && o.promo == n.promo && o.renew == n.renew && o.placedAt == n.placedAt
                   && o.status == WaitPayment && o.subscription.None? && o.paidAt.None?
    {
      if !RefersToRows(Tables(), n) {
        return ErrRejected;
      }
      var order := |orders|;
      var txOrders := orders + [FreshOrder(n)];
      var txPromos, txRedemptions := promos, redemptions;
      if n.promo.Some? {
        var p := n.promo.value;
        if !Redeemable(promos[p]) {
          return ErrPromoInvalid;
        }
        txPromos := promos[p := promos[p].(usedCount := promos[p].usedCount + 1)];
        if HasRedeemed(redemptions, p, n.user) {
          return ErrPromoUsed;
        }
        txRedemptions := redemptions + [Redemption(p, n.user, order)];
      }
      orders, promos, redemptions := txOrders, txPromos, txRedemptions;
      r := PlacedOrder(order);
    }

    /** CountRecentPendingOrders: the unpaid orders of the user that were placed after the given time. */
    method CountRecentPending(user: nat, since: int) returns (n: nat)
      ensures n == |PendingOrders(orders, user, since)|
      ensures n == |set k | 0 <= k < |orders| && orders[k].user == user && orders[k].placedAt > since
                            && (orders[k].status == New || orders[k].status == WaitPayment)|
    {
      n := 0;
      ghost var pending := {};
      for i := 0 to |orders|
        invariant n == |pending|
        invariant pending == set k | 0 <= k < i && IsPending(orders[k], user, since)
      {
        if IsPending(orders[i], user, since) {
          n, pending := n + 1, pending + {i};
        }
      }
      assert pending == set k | 0 <= k < |orders| && orders[k].user == user && orders[k].placedAt > since
                                && (orders[k].status == New || orders[k].status == WaitPayment);
    }

    /** CreatePayment */
    method CreatePayment(order: nat, status: PaymentStatus) returns (ok: bool)
      modifies this`payments
      ensures ok == (order < |orders|)
      ensures payments == if ok then old(payments) + [Payment(order, status)] else old(payments)
    {
      ok := order < |orders|;
      if ok {
        payments := payments + [Payment(order, status)];
      }
    }

    /** ClaimForProvisioning: of all callers, the first one gets the order. */
    method ClaimForProvisioning(order: nat) returns (claimed: bool)
      modifies this`orders
      ensures claimed == Claimable(old(Tables()), order)
      ensures Tables() == if claimed then Claim(old(Tables()), order) else old(Tables())
      ensures claimed <==> order < |old(orders)| && old(orders)[order].status == WaitPayment
      ensures claimed ==> orders == old(orders)[order := old(orders)[order].(status := Processing)]
    {
      claimed := order < |orders| && orders[order].status == WaitPayment;
      if claimed {
        orders := orders[order := orders[order].(status := Processing)];
      }
    }

    /** UPDATE payments SET status WHERE order_id */
    method SetPaymentStatus(order: nat, status: PaymentStatus)
      modifies this`payments
      ensures payments == SetPayments(old(payments), order, status)
    {
      var updated := [];
      for i := 0 to |payments|
        invariant |updated| == i
        invariant forall k :: 0 <= k < i ==> updated[k] == SetPayments(payments, order, status)[k]
      {
        updated := updated + [if payments[i].order == order then payments[i].(status := status) else payments[i]];
      }
      payments := updated;
    }

    /** The query for the hash that the next entry of a user continues. */
    method PreviousHash(user: nat) returns (hash: string)
      ensures hash == PrevHash(ledger, user)
      ensures (forall i :: 0 <= i < |ledger| ==> ledger[i].body.user != user) ==> hash == ""
      ensures (exists i :: 0 <= i < |ledger| && ledger[i].body.user == user) ==>
                exists k :: && 0 <= k < |ledger| && ledger[k].body.user == user && hash == ledger[k].hash
                            && forall i :: 0 <= i < |ledger| && ledger[i].body.user == user ==>
                                 || ledger[i].createdAt < ledger[k].createdAt
                                 || (ledger[i].createdAt == ledger[k].createdAt && ledger[i].id <= ledger[k].id)
    {
      var best: Option<nat> := None;
      for i := 0 to |ledger|
        invariant best == Newest(ledger[..i], user)
      {
        assert ledger[..i + 1][..i] == ledger[..i];
        if ledger[i].body.user == user {
          if best.None? || Newer(ledger[i], ledger[best.value]) {
            best := Some(i);
          }
        }
      }
      assert ledger[..|ledger|] == ledger;
      hash := if best.None? then "" else ledger[best.value].hash;
    }

    /** appendLedger */
    method AppendLedger(b: Body, now: int, id: nat)
      modifies this`ledger
      ensures ledger == Append(digest, old(ledger), b, now, id)
    {
      var prev := PreviousHash(b.user);
      ledger := ledger + [Entry(id, now, b, prev, digest(Payload(prev, b)))];
    }

    /** FinalizePaid */
    method FinalizePaid(order: nat, sub: nat, now: int, id: nat) returns (ok: bool)
      modifies this`orders, this`payments, this`ledger
      ensures match BillingTables.FinalizePaid(old(Tables()), order, sub, now, id)
              case None => !ok && Tables() == old(Tables())
              case Some(books) => ok && Tables() == books
      ensures ok <==> order < |old(orders)| && sub < |subs|
                      && (old(orders)[order].status == WaitPayment || old(orders)[order].status == Processing)
      ensures ok ==>
                && var o := old(orders)[order];
                   && orders == old(orders)[order := o.(status := Paid, subscription := Some(sub), paidAt := Some(now))]
                   && |ledger| == |old(ledger)| + 1 && ledger[..|old(ledger)|] == old(ledger)
                   && var e := ledger[|old(ledger)|];
                      && e.id == id && e.createdAt == now && e.body.kind == "charge" && e.body.refType == "order"
                      && e.body.ref == order && e.body.user == o.user
                      && e.body.amount == o.amount && e.body.currency == o.currency
      ensures ok ==>
                && |payments| == |old(payments)|
                && forall i :: 0 <= i < |payments| ==>
                     payments[i]
                     == if old(payments)[i].order == order then Payment(order, Success) else old(payments)[i]
    {
      if order >= |orders| || (orders[order].status != WaitPayment && orders[order].status != Processing)
         || sub >= |subs| {
        return false;
      }
      var o := orders[order];
      orders := orders[order := o.(status := Paid, paidAt := Some(now), subscription := Some(sub))];
      SetPaymentStatus(order, Success);
      AppendLedger(Body("charge", o.amount, o.currency, "order", order, o.user), now, id);
      ok := true;
    }

    /** MarkFailed: a settled order keeps its status, its payments do not. */
    method MarkFailed(order: nat)
      modifies this`orders, this`payments
      ensures Tables() == BillingTables.MarkFailed(old(Tables()), order)
      ensures |orders| == |old(orders)| && |payments| == |old(payments)|
      ensures forall i :: 0 <= i < |orders| ==>
                orders[i] == if i == order && old(orders)[i].status in {WaitPayment, Processing}
                             then old(orders)[i].(status := Failed) else old(orders)[i]
      ensures forall i :: 0 <= i < |payments| ==>
                payments[i] == if old(payments)[i].order == order then Payment(order, Failure) else old(payments)[i]
    {
      if order < |orders| && (orders[order].status == WaitPayment || orders[order].status == Processing) {
        orders := orders[order := orders[order].(status := Failed)];
      }
      SetPaymentStatus(order, Failure);
    }

    /** ExtendSubscription */
    method ExtendSubscription(sub: nat, days: int, now: int) returns (ok: bool)
      modifies this`subs
      ensures match BillingTables.ExtendSubscription(old(Tables()), sub, days, now)
              case None => !ok && Tables() == old(Tables())
              case Some(books) => ok && Tables() == books
      ensures ok <==> sub < |old(subs)| && old(subs)[sub].status != Deleted
      ensures ok ==>
                && |subs| == |old(subs)| && subs[sub].status == Active
                && (old(subs)[sub].expiresAt >= now ==> subs[sub].expiresAt == old(subs)[sub].expiresAt + days * 86400)
                && (old(subs)[sub].expiresAt < now ==> subs[sub].expiresAt == now + days * 86400)
    {
      if sub >= |subs| || subs[sub].status == Deleted {
        return false;
      }
      var from := if subs[sub].expiresAt >= now then subs[sub].expiresAt else now;
      subs := subs[sub := subs[sub].(expiresAt := from + days * DAY, status := Active)];
      ok := true;
    }

    /** sweep: the bulk update that expires overdue subscriptions; it reports how many. */
    method Sweep(now: int, grace: int) returns (expired: nat)
      modifies this`subs
      ensures subs == SweepAll(old(subs), now, grace)
      ensures expired == |DueSubs(old(subs), now, grace)|
      ensures |subs| == |old(subs)|
      ensures forall i :: 0 <= i < |subs| ==>
                subs[i] == if old(subs)[i].status == Active && old(subs)[i].expiresAt < now - grace
                           then old(subs)[i].(status := Expired) else old(subs)[i]
    {
      hide Swept, Due;
      var rows, swept := subs, [];
      expired := 0;
      NoneDue(rows, now, grace);
      for i := 0 to |rows|
        invariant swept == SweepAll(rows[..i], now, grace) && expired == |DueSubs(rows[..i], now, grace)|
      {
        OneMoreDue(rows, i, now, grace);
        if rows[i].status == Active && rows[i].expiresAt < now - grace {
          swept := swept + [rows[i].(status := Expired)];
          expired := expired + 1;
        } else {
          swept := swept + [rows[i]];
        }
      }
      assert rows[..|rows|] == rows;
      subs := swept;
      forall i | 0 <= i < |rows|
        ensures swept[i] == if rows[i].status == Active && rows[i].expiresAt < now - grace
                            then rows[i].(status := Expired) else rows[i]
      {
        OneMoreDue(rows, i, now, grace);
      }
    }
  }

  /** An order that still waits for its payment and was placed after the given time. */
  predicate IsPending(o: Order, user: nat, since: int) {
    o.user == user && (o.status == New || o.status == WaitPayment) && o.placedAt > since
  }

  ghost function PendingOrders(orders: seq<Order>, user: nat, since: int): set<int> {
    set k | 0 <= k < |orders| && IsPending(orders[k], user, since)
  }

  ghost function DueSubs(subs: seq<Sub>, now: int, grace: int): set<int> {
    set i | 0 <= i < |subs| && Due(subs[i], now, grace)
  }

  lemma NoneDue(subs: seq<Sub>, now: int, grace: int)
    ensures DueSubs(subs[..0], now, grace) == {} && SweepAll(subs[..0], now, grace) == []
  {
  }

  lemma OneMoreDue(subs: seq<Sub>, i: nat, now: int, grace: int)
    requires i < |subs|
    ensures |DueSubs(subs[..i + 1], now, grace)|
            == |DueSubs(subs[..i], now, grace)| + if Due(subs[i], now, grace) then 1 else 0
    ensures SweepAll(subs[..i + 1], now, grace) == SweepAll(subs[..i], now, grace) + [Swept(subs[i], now, grace)]
    ensures Swept(subs[i], now, grace) == if Due(subs[i], now, grace) then subs[i].(status := Expired) else subs[i]
    ensures Due(subs[i], now, grace) <==> subs[i].status == Active && subs[i].expiresAt < now - grace
  {
    var less, more := DueSubs(subs[..i], now, grace), DueSubs(subs[..i + 1], now, grace);
    assert more == if Due(subs[i], now, grace) then less + {i} else less;
  }
}

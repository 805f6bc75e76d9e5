/**
 * Buying and fulfilling as a protocol: every transaction and every call of the issuer is one step, the steps
 * of duplicate, late and contradictory callbacks interleave freely, and a callback may stop anywhere.
 */
module BillingProtocol {
  import opened Text
  import opened Subscriptions
  import opened Ledger
  import opened Pricing
  import opened Renewals
  import opened BillingTables

  /** How far the fulfilment of a claimed order has come; a renewal looks up the days of its plan first. */
  datatype Stage = Claimed | Priced(days: int) | Issued(sub: nat)

  datatype Fulfilment = Fulfilment(order: nat, stage: Stage)

  /** issuances lists the order of every call of the issuer and every extension, in order of time. */
  datatype World = World(books: Books, procs: map<nat, Fulfilment>, issuances: seq<nat>)

  datatype Step =
    | PlaceOrder(pid: nat, n: NewOrder)
    | RegisterPayment(pid: nat, order: nat, status: PaymentStatus)
    | ClaimOrder(pid: nat, order: nat)
    | ClaimMissed(pid: nat, order: nat)
    | IssueOk(pid: nat, row: Sub)
    | IssueFailed(pid: nat)
    | PlanRead(pid: nat)
    | PlanMissing(pid: nat)
    | RenewOk(pid: nat, now: int)
    | RenewRefused(pid: nat)
    | Finalize(pid: nat, now: int, id: nat)
    | FinalizeRefused(pid: nat)
    | Fail(pid: nat, order: nat)
    | Stop(pid: nat)
    | SweepDue(now: int, grace: int)
    | AddSub(row: Sub)
    | DeleteSub(sub: nat)
    | MoveSub(sub: nat, server: nat)
    | AddPromo(p: Promo)
    | ChangeCatalogue(c: Catalogue)

  /** The operation that takes a step, if it is a step of one. */
  function Owner(s: Step): Option<nat> {
    match s
    case PlaceOrder(pid, _) => Some(pid)
    case RegisterPayment(pid, _, _) => Some(pid)
    case ClaimOrder(pid, _) => Some(pid)
    case ClaimMissed(pid, _) => Some(pid)
    case IssueOk(pid, _) => Some(pid)
    case IssueFailed(pid) => Some(pid)
    case PlanRead(pid) => Some(pid)
    case PlanMissing(pid) => Some(pid)
    case RenewOk(pid, _) => Some(pid)
    case RenewRefused(pid) => Some(pid)
    case Finalize(pid, _, _) => Some(pid)
    case FinalizeRefused(pid) => Some(pid)
    case Fail(pid, _) => Some(pid)
    case Stop(pid) => Some(pid)
    case SweepDue(_, _) => None
    case AddSub(_) => None
    case DeleteSub(_) => None
    case MoveSub(_, _) => None
    case AddPromo(_) => None
    case ChangeCatalogue(_) => None
  }

  predicate Fulfilling(w: World, pid: nat) {
    pid in w.procs && w.procs[pid].order < |w.books.orders|
  }

  predicate AtClaimed(w: World, pid: nat) {
    Fulfilling(w, pid) && w.procs[pid].stage == Claimed
  }

  predicate AtPriced(w: World, pid: nat) {
    Fulfilling(w, pid) && w.procs[pid].stage.Priced? && w.books.orders[w.procs[pid].order].renew.Some?
  }

  /** The claimed order is a renewal. */
  predicate Renews(w: World, pid: nat)
    requires Fulfilling(w, pid)
  {
    w.books.orders[w.procs[pid].order].renew.Some?
  }

  /** GetPlanPricing finds the plan of the claimed order. */
  predicate PlanAvailable(w: World, pid: nat)
    requires Fulfilling(w, pid)
  {
    var plan := w.books.orders[w.procs[pid].order].plan;
    plan < |w.books.catalogue.plans| && w.books.catalogue.plans[plan].active
  }

  /** ExtendSubscription finds the row: it is there and not deleted. */
  predicate Extendable(b: Books, sub: nat) {
    sub < |b.subs| && b.subs[sub].status != Deleted
  }

  lemma ExtendableMeans(b: Books, sub: nat, days: int, now: int)
    ensures ExtendSubscription(b, sub, days, now).Some? <==> Extendable(b, sub)
  {
  }

  predicate Enabled(w: World, s: Step) {
    match s
    case PlaceOrder(_, n) => CreateOrder(w.books, n).Ordered?
    case RegisterPayment(_, order, _) => order < |w.books.orders|
    case ClaimOrder(pid, order) => pid !in w.procs && Claimable(w.books, order)
    case ClaimMissed(pid, order) => pid !in w.procs && order < |w.books.orders| && !Claimable(w.books, order)
    case IssueOk(pid, row) => AtClaimed(w, pid) && !Renews(w, pid) && row.status == Active
    case IssueFailed(pid) => AtClaimed(w, pid) && !Renews(w, pid)
    case PlanRead(pid) => AtClaimed(w, pid) && Renews(w, pid) && PlanAvailable(w, pid)
    case PlanMissing(pid) => AtClaimed(w, pid) && Renews(w, pid) && !PlanAvailable(w, pid)
    case RenewOk(pid, _) =>
      AtPriced(w, pid) && Extendable(w.books, w.books.orders[w.procs[pid].order].renew.value)
    case RenewRefused(pid) =>
      AtPriced(w, pid) && !Extendable(w.books, w.books.orders[w.procs[pid].order].renew.value)
    case Finalize(pid, _, _) => AtIssued(w, pid) && Finalizable(w, pid)
    case FinalizeRefused(pid) => AtIssued(w, pid) && !Finalizable(w, pid)
    case Fail(_, order) => order < |w.books.orders|
    case Stop(pid) => pid in w.procs
    case AddSub(row) => row.status == Active
    case DeleteSub(sub) => Extendable(w.books, sub)
    case MoveSub(sub, _) => sub < |w.books.subs|
    case AddPromo(p) => p.usedCount == 0
    case ChangeCatalogue(c) => CatalogueGrows(w.books.catalogue, c)
    case SweepDue(_, _) => true
  }

  predicate AtIssued(w: World, pid: nat) {
    Fulfilling(w, pid) && w.procs[pid].stage.Issued?
  }

  /** What FinalizePaid asks of the order and the subscription. */
  predicate Finalizable(w: World, pid: nat)
    requires AtIssued(w, pid)
  {
    Unsettled(w.books, w.procs[pid].order) && w.procs[pid].stage.sub < |w.books.subs|
  }

  function WithSubs(w: World, subs: seq<Sub>): World {
    w.(books := w.books.(subs := subs))
  }

  function Do(w: World, s: Step): World
    requires Enabled(w, s)
  {
    match s
    case PlaceOrder(_, n) => w.(books := CreateOrder(w.books, n).books)
    case RegisterPayment(_, order, status) =>
      w.(books := w.books.(payments := w.books.payments + [Payment(order, status)]))
    case ClaimOrder(pid, order) =>
      w.(books := Claim(w.books, order), procs := w.procs[pid := Fulfilment(order, Claimed)])
    case ClaimMissed(_, _) => w
    case IssueOk(pid, row) =>
      var f := w.procs[pid];
      w.(books := w.books.(subs := w.books.subs + [row]),
         procs := w.procs[pid := f.(stage := Issued(|w.books.subs|))],
         issuances := w.issuances + [f.order])
    case IssueFailed(pid) =>
      w.(procs := w.procs - {pid}, issuances := w.issuances + [w.procs[pid].order])
    case PlanRead(pid) =>
      var f := w.procs[pid];
      w.(procs := w.procs[pid := f.(stage := Priced(w.books.catalogue.plans[w.books.orders[f.order].plan].days))])
    case PlanMissing(pid) => w.(procs := w.procs - {pid})
    case RenewOk(pid, now) =>
      var f := w.procs[pid];
      var sub := w.books.orders[f.order].renew.value;
      ExtendableMeans(w.books, sub, f.stage.days, now);
      w.(books := ExtendSubscription(w.books, sub, f.stage.days, now).value,
         procs := w.procs[pid := f.(stage := Issued(sub))],
         issuances := w.issuances + [f.order])
    case RenewRefused(pid) =>
      w.(procs := w.procs - {pid}, issuances := w.issuances + [w.procs[pid].order])
    case Finalize(pid, now, id) =>
      var f := w.procs[pid];
      w.(books := FinalizePaid(w.books, f.order, f.stage.sub, now, id).value, procs := w.procs - {pid})
    case FinalizeRefused(pid) => w.(procs := w.procs - {pid})
    case Fail(_, order) => w.(books := MarkFailed(w.books, order))
    case Stop(pid) => w.(procs := w.procs - {pid})
    case SweepDue(now, grace) => w.(books := w.books.(subs := SweepAll(w.books.subs, now, grace)))
    case AddSub(row) => WithSubs(w, w.books.subs + [row])
    case DeleteSub(sub) => WithSubs(w, w.books.subs[sub := w.books.subs[sub].(status := Deleted)])
    case MoveSub(sub, server) =>
      WithSubs(w, w.books.subs[sub := w.books.subs[sub].(server := server, status := Active)])
    case AddPromo(p) => w.(books := w.books.(promos := w.books.promos + [p]))
    case ChangeCatalogue(c) => w.(books := w.books.(catalogue := c))
  }

  // Runs

  ghost predicate Legal(w: World, steps: seq<Step>)
    decreases |steps|
  {
    steps == [] || (Enabled(w, steps[0]) && Legal(Do(w, steps[0]), steps[1..]))
  }

  ghost function Run(w: World, steps: seq<Step>): World
    requires Legal(w, steps)
    decreases |steps|
  {
    if steps == [] then w else Run(Do(w, steps[0]), steps[1..])
  }

  lemma {:induction false} RunAppend(w: World, steps: seq<Step>, s: Step)
    requires Legal(w, steps) && Enabled(Run(w, steps), s)
    ensures Legal(w, steps + [s]) && Run(w, steps + [s]) == Do(Run(w, steps), s)
    decreases |steps|
  {
    hide Do, Enabled;
    if steps == [] {
      assert steps + [s] == [s];
      assert Legal(Do(w, s), [s][1..]);
    } else {
      RunAppend(Do(w, steps[0]), steps[1..], s);
      assert (steps + [s])[1..] == steps[1..] + [s];
    }
  }

  lemma {:induction false} RunConcat(w: World, a: seq<Step>, b: seq<Step>)
    requires Legal(w, a) && Legal(Run(w, a), b)
    ensures Legal(w, a + b) && Run(w, a + b) == Run(Run(w, a), b)
    decreases |a|
  {
    hide Do, Enabled;
    if a == [] {
      assert a + b == b;
    } else {
      RunConcat(Do(w, a[0]), a[1..], b);
      assert (a + b)[1..] == a[1..] + b;
    }
  }

  /** The steps of others do not touch an operation. */
  lemma {:induction false} OthersLeave(w: World, steps: seq<Step>, pid: nat)
    requires Legal(w, steps) && forall i :: 0 <= i < |steps| ==> Owner(steps[i]) != Some(pid)
    ensures pid in Run(w, steps).procs <==> pid in w.procs
    ensures pid in w.procs ==> Run(w, steps).procs[pid] == w.procs[pid]
    decreases |steps|
  {
    if steps != [] {
      StepLeaves(w, steps[0], pid);
      OthersLeave(Do(w, steps[0]), steps[1..], pid);
    }
  }

  lemma StepLeaves(w: World, s: Step, pid: nat)
    requires Enabled(w, s) && Owner(s) != Some(pid)
    ensures pid in Do(w, s).procs <==> pid in w.procs
    ensures pid in w.procs ==> Do(w, s).procs[pid] == w.procs[pid]
  {
    hide CreateOrder, FinalizePaid, MarkFailed, ExtendSubscription;
  }

  ghost predicate Initial(w: World) {
    && w.books.orders == [] && w.books.payments == [] && w.books.redemptions == [] && w.books.ledger == []
    && w.books.promos == [] && w.procs == map[] && w.issuances == []
  }

  // The invariant

  /** No order is issued twice; a paid order was issued, and one that waits for payment was not. */
  ghost predicate IssuedOnce(w: World) {
    && (forall i, j :: 0 <= i < j < |w.issuances| ==> w.issuances[i] != w.issuances[j])
    && (forall i :: 0 <= i < |w.issuances| ==>
          w.issuances[i] < |w.books.orders| && w.books.orders[w.issuances[i]].status != WaitPayment)
    && (forall o :: 0 <= o < |w.books.orders| && w.books.orders[o].status == Paid ==> o in w.issuances)
  }

  /** A renewal order is paid with the subscription that it renews. */
  ghost predicate RenewalsHonoured(b: Books) {
    forall o :: 0 <= o < |b.orders| && b.orders[o].status == Paid && b.orders[o].renew.Some? ==>
      b.orders[o].subscription == b.orders[o].renew
  }

  /** The plan is active and lasts so many days. */
  predicate HasDays(b: Books, plan: nat, days: int) {
    plan < |b.catalogue.plans| && b.catalogue.plans[plan].active && b.catalogue.plans[plan].days == days
  }

  ghost predicate FulfilmentOk(w: World, f: Fulfilment) {
    && f.order < |w.books.orders|
    && (w.books.orders[f.order].status == Processing || w.books.orders[f.order].status == Failed)
    && match f.stage
       case Claimed => f.order !in w.issuances
       case Priced(days) =>
         && f.order !in w.issuances && w.books.orders[f.order].renew.Some?
         && HasDays(w.books, w.books.orders[f.order].plan, days)
       case Issued(sub) =>
         && f.order in w.issuances && sub < |w.books.subs|
         && (w.books.orders[f.order].renew.Some? ==> w.books.orders[f.order].renew == Some(sub))
  }

  ghost predicate ProcsOk(w: World) {
    && (forall pid :: pid in w.procs ==> FulfilmentOk(w, w.procs[pid]))
    && forall a, b :: a in w.procs && b in w.procs && a != b ==> w.procs[a].order != w.procs[b].order
  }

  ghost predicate Inv(w: World) {
    BooksOk(w.books) && IssuedOnce(w) && RenewalsHonoured(w.books) && ProcsOk(w)
  }

  lemma InitialInv(w: World)
    requires Initial(w)
    ensures Inv(w)
  {
  }

  // Every step keeps the invariant

  lemma BooksKeep(w: World, s: Step)
    requires Inv(w) && Enabled(w, s)
    ensures BooksOk(Do(w, s).books) && OrdersKept(w.books, Do(w, s).books)
  {
    match s
    case PlaceOrder(_, n) => CreateOrderKeeps(w.books, n);
    case RegisterPayment(_, _, _) => PaymentsKeep(w.books, Do(w, s).books.payments);
    case ClaimOrder(_, order) => StatusKeeps(w.books, order, Processing, w.books.payments);
    case ClaimMissed(_, _) =>
    case IssueOk(_, _) => SubsKeep(w.books, Do(w, s).books.subs);
    case IssueFailed(_) =>
    case PlanRead(_) =>
    case PlanMissing(_) =>
    case RenewOk(_, _) => SubsKeep(w.books, Do(w, s).books.subs);
    case RenewRefused(_) =>
    case Finalize(pid, now, id) =>
      FinalizeKeeps(w.books, w.procs[pid].order, w.procs[pid].stage.sub, now, id);
    case FinalizeRefused(_) =>
    case Fail(_, order) =>
      var payments := SetPayments(w.books.payments, order, Failure);
      if Unsettled(w.books, order) {
        StatusKeeps(w.books, order, Failed, payments);
      } else {
        PaymentsKeep(w.books, payments);
      }
    case Stop(_) =>
    case SweepDue(_, _) => SubsKeep(w.books, Do(w, s).books.subs);
    case AddSub(_) => SubsKeep(w.books, Do(w, s).books.subs);
    case DeleteSub(_) => SubsKeep(w.books, Do(w, s).books.subs);
    case MoveSub(_, _) => SubsKeep(w.books, Do(w, s).books.subs);
    case AddPromo(p) => AddPromoKeeps(w.books, p);
    case ChangeCatalogue(c) => CatalogueKeeps(w.books, c);
  }

  /** What a fulfilment relies on, as far as other steps can touch it. */
  lemma FulfilmentFrame(w: World, w': World, f: Fulfilment)
    requires FulfilmentOk(w, f) && |w.books.subs| <= |w'.books.subs| && f.order < |w'.books.orders|
    requires w'.books.orders[f.order].renew == w.books.orders[f.order].renew
    requires w'.books.orders[f.order].plan == w.books.orders[f.order].plan
    requires w.books.catalogue.plans <= w'.books.catalogue.plans
    requires w'.books.orders[f.order].status == w.books.orders[f.order].status
             || w'.books.orders[f.order].status == Failed
    requires f.order in w'.issuances <==> f.order in w.issuances
    ensures FulfilmentOk(w', f)
  {
  }

  /** w' differs from w in new orders, in failures and in fulfilments given up. */
  ghost predicate Quiet(w: World, w': World) {
    && w'.issuances == w.issuances && |w.books.subs| <= |w'.books.subs| && |w.books.orders| <= |w'.books.orders|
    && w.books.catalogue.plans <= w'.books.catalogue.plans
    && (forall i :: 0 <= i < |w.books.orders| ==>
          || w'.books.orders[i] == w.books.orders[i]
          || (w'.books.orders[i] == w.books.orders[i].(status := Failed) && Unsettled(w.books, i)))
    && (forall i :: |w.books.orders| <= i < |w'.books.orders| ==> w'.books.orders[i].status == WaitPayment)
    && (forall q :: q in w'.procs ==> q in w.procs && SamePhase(w, w.procs[q], w'.procs[q]))
  }

  /** A fulfilment that changes at most by looking up its plan. */
  predicate SamePhase(w: World, f: Fulfilment, f': Fulfilment) {
    || f' == f
    || (f.stage == Claimed && f'.stage.Priced? && f'.order == f.order
        && f.order < |w.books.orders| && w.books.orders[f.order].renew.Some?
        && HasDays(w.books, w.books.orders[f.order].plan, f'.stage.days))
  }

  predicate IsQuiet(s: Step) {
    || s.PlaceOrder? || s.RegisterPayment? || s.ClaimMissed? || s.Fail? || s.FinalizeRefused? || s.Stop?
    || s.PlanRead? || s.PlanMissing?
    || s.SweepDue? || s.AddSub? || s.DeleteSub? || s.MoveSub? || s.AddPromo? || s.ChangeCatalogue?
  }

  lemma QuietStep(w: World, s: Step)
    requires Enabled(w, s)
    requires IsQuiet(s)
    ensures Quiet(w, Do(w, s))
  {
    hide Redeemable, HasRedeemed, RefersToRows, Swept;
  }

  lemma QuietKeeps(w: World, w': World)
    requires Quiet(w, w') && IssuedOnce(w) && RenewalsHonoured(w.books) && ProcsOk(w)
    ensures IssuedOnce(w') && RenewalsHonoured(w'.books) && ProcsOk(w')
  {
    forall q | q in w'.procs ensures FulfilmentOk(w', w'.procs[q]) {
      assert FulfilmentOk(w, w.procs[q]) && SamePhase(w, w.procs[q], w'.procs[q]);
      FulfilmentFrame(w, w', w.procs[q]);
    }
    hide FulfilmentOk;
    forall i | 0 <= i < |w.issuances|
      ensures w.issuances[i] < |w'.books.orders| && w'.books.orders[w.issuances[i]].status != WaitPayment
    {
      assert w.books.orders[w.issuances[i]].status != WaitPayment;
    }
  }

  lemma ClaimKeeps(w: World, pid: nat, order: nat)
    requires Inv(w) && Enabled(w, ClaimOrder(pid, order))
    ensures var w' := Do(w, ClaimOrder(pid, order)); IssuedOnce(w') && RenewalsHonoured(w'.books) && ProcsOk(w')
  {
    hide BooksOk;
    var w' := Do(w, ClaimOrder(pid, order));
    assert order !in w.issuances;
    forall q | q in w'.procs ensures FulfilmentOk(w', w'.procs[q]) && (q != pid ==> w'.procs[q].order != order) {
      if q != pid {
        assert FulfilmentOk(w, w.procs[q]);
        FulfilmentFrame(w, w', w.procs[q]);
      }
    }
    hide FulfilmentOk;
  }

  /** One more issuance of an order, by its fulfilment, which may then be given up. */
  ghost predicate IssuedBy(w: World, w': World, pid: nat, order: nat) {
    && w'.books.orders == w.books.orders && w'.issuances == w.issuances + [order]
    && |w.books.subs| <= |w'.books.subs| && order < |w.books.orders| && w'.books.catalogue == w.books.catalogue
    && (forall q :: q in w'.procs && q != pid ==> q in w.procs && w'.procs[q] == w.procs[q])
    && (pid in w'.procs ==>
          && w'.procs[pid].order == order && w'.procs[pid].stage.Issued?
          && w'.procs[pid].stage.sub < |w'.books.subs|
          && (w.books.orders[order].renew.Some? ==> w.books.orders[order].renew == Some(w'.procs[pid].stage.sub)))
  }

  predicate IsIssuing(s: Step) {
    s.IssueOk? || s.IssueFailed? || s.RenewOk? || s.RenewRefused?
  }

  /** The fulfilment has not issued anything yet. */
  predicate BeforeIssue(w: World, pid: nat) {
    AtClaimed(w, pid) || AtPriced(w, pid)
  }

  lemma IssueStep(w: World, s: Step)
    requires Enabled(w, s) && IsIssuing(s)
    ensures IssuedBy(w, Do(w, s), s.pid, w.procs[s.pid].order)
  {
  }

  lemma IssueKeeps(w: World, w': World, pid: nat)
    requires IssuedOnce(w) && RenewalsHonoured(w.books) && ProcsOk(w) && BeforeIssue(w, pid)
    requires IssuedBy(w, w', pid, w.procs[pid].order)
    ensures IssuedOnce(w') && RenewalsHonoured(w'.books) && ProcsOk(w')
  {
    var order := w.procs[pid].order;
    assert FulfilmentOk(w, w.procs[pid]);
    IssuedAgain(w, w', order);
    forall q | q in w'.procs ensures FulfilmentOk(w', w'.procs[q]) {
      if q != pid {
        assert FulfilmentOk(w, w.procs[q]) && w.procs[q].order != order;
        FulfilmentFrame(w, w', w.procs[q]);
      }
    }
    hide FulfilmentOk, IssuedOnce;
  }

  lemma IssuedAgain(w: World, w': World, order: nat)
    requires IssuedOnce(w) && w'.books.orders == w.books.orders && w'.issuances == w.issuances + [order]
    requires order < |w.books.orders| && w.books.orders[order].status != WaitPayment && order !in w.issuances
    ensures IssuedOnce(w') && forall o :: o in w'.issuances <==> o == order || o in w.issuances
  {
    assert w'.issuances[|w.issuances|] == order;
    assert forall o :: o in w.issuances ==> o in w'.issuances;
  }

  lemma FinalizeStepKeeps(w: World, s: Step)
    requires Inv(w) && Enabled(w, s) && s.Finalize?
    ensures IssuedOnce(Do(w, s)) && RenewalsHonoured(Do(w, s).books) && ProcsOk(Do(w, s))
  {
    hide BooksOk, Append, SetPayments, ChargeFor;
    var w' := Do(w, s);
    var f := w.procs[s.pid];
    assert FulfilmentOk(w, f);
    forall q | q in w'.procs ensures FulfilmentOk(w', w'.procs[q]) {
      assert FulfilmentOk(w, w.procs[q]) && w.procs[q].order != f.order;
      FulfilmentFrame(w, w', w.procs[q]);
    }
    hide ProcsOk;
  }

  lemma IssueStepKeeps(w: World, s: Step)
    requires Inv(w) && Enabled(w, s) && IsIssuing(s)
    ensures IssuedOnce(Do(w, s)) && RenewalsHonoured(Do(w, s).books) && ProcsOk(Do(w, s))
  {
    IssueStep(w, s);
    assert BeforeIssue(w, s.pid);
    hide BooksOk, IssuedOnce, RenewalsHonoured, ProcsOk, Do, IssuedBy;
    IssueKeeps(w, Do(w, s), s.pid);
  }

  lemma StepKeeps(w: World, s: Step)
    requires Inv(w) && Enabled(w, s)
    ensures Inv(Do(w, s)) && OrdersKept(w.books, Do(w, s).books)
  {
    BooksKeep(w, s);
    hide BooksOk, IssuedOnce, RenewalsHonoured, ProcsOk, Do, Enabled, OrdersKept, Quiet;
    match s
    case ClaimOrder(pid, order) => ClaimKeeps(w, pid, order);
    case IssueOk(_, _) => IssueStepKeeps(w, s);
    case IssueFailed(_) => IssueStepKeeps(w, s);
    case RenewOk(_, _) => IssueStepKeeps(w, s);
    case RenewRefused(_) => IssueStepKeeps(w, s);
    case Finalize(_, _, _) => FinalizeStepKeeps(w, s);
    case _ =>
      QuietStep(w, s);
      QuietKeeps(w, Do(w, s));
  }

  lemma {:induction false} RunKeeps(w: World, steps: seq<Step>)
    requires Inv(w) && Legal(w, steps)
    ensures Inv(Run(w, steps))
    decreases |steps|
  {
    if steps != [] {
      StepKeeps(w, steps[0]);
      RunKeeps(Do(w, steps[0]), steps[1..]);
    }
  }

  // What holds over whole runs

  /**
   * From empty books, whatever callbacks arrive: no order is issued twice and a paid one exactly once, the
   * ledger and the paid orders match and have the same totals, and promos are accounted for exactly.
   */
  lemma ReachableBooks(w: World, steps: seq<Step>)
    requires Initial(w) && Legal(w, steps)
    ensures var v := Run(w, steps);
            && IssuedOnce(v) && RenewalsHonoured(v.books) && OrdersShaped(v.books)
            && LedgerMatches(v.books) && TotalsAgree(v.books) && PromosOk(v.books)
  {
    InitialInv(w);
    RunKeeps(w, steps);
  }

  lemma FollowsTransitive(a: Books, b: Books, c: Books)
    requires OrdersKept(a, b) && OrdersKept(b, c)
    ensures OrdersKept(a, c)
  {
    forall i | 0 <= i < |a.orders| ensures OrderKept(a.orders[i], c.orders[i]) {
      assert OrderKept(a.orders[i], b.orders[i]) && OrderKept(b.orders[i], c.orders[i]);
    }
  }

  lemma StepLedger(w: World, s: Step)
    requires Enabled(w, s)
    ensures w.books.ledger <= Do(w, s).books.ledger && Do(w, s).books.digest == w.books.digest
  {
  }

  /** Over any run orders only move forward, paid and failed ones stay, and the ledger is only appended to. */
  lemma {:induction false} OrdersOverRun(w: World, steps: seq<Step>)
    requires Inv(w) && Legal(w, steps)
    ensures OrdersKept(w.books, Run(w, steps).books)
    ensures w.books.ledger <= Run(w, steps).books.ledger
    decreases |steps|
  {
    if steps == [] {
      forall i | 0 <= i < |w.books.orders| ensures OrderKept(w.books.orders[i], w.books.orders[i]) {
      }
    } else {
      StepKeeps(w, steps[0]);
      StepLedger(w, steps[0]);
      OrdersOverRun(Do(w, steps[0]), steps[1..]);
      FollowsTransitive(w.books, Do(w, steps[0]).books, Run(w, steps).books);
    }
  }

  // When a claimed order gets paid

  /** Some step of the run is a failure callback for the order. */
  predicate FailedIn(steps: seq<Step>, order: nat) {
    exists i :: 0 <= i < |steps| && steps[i].Fail? && steps[i].order == order
  }

  /** The order is claimed, and neither paid nor back to waiting. */
  predicate ClaimedOrFailed(w: World, order: nat) {
    order < |w.books.orders|
    && (w.books.orders[order].status == Processing || w.books.orders[order].status == Failed)
  }

  lemma StepFails(w: World, s: Step, order: nat)
    requires Inv(w) && Enabled(w, s) && ClaimedOrFailed(w, order)
    requires Do(w, s).books.orders[order].status != Paid
    ensures ClaimedOrFailed(Do(w, s), order)
    ensures Do(w, s).books.orders[order].status == Failed
            <==> w.books.orders[order].status == Failed || (s.Fail? && s.order == order)
  {
    hide BooksOk, IssuedOnce, RenewalsHonoured, Append, Redeemable, HasRedeemed, RefersToRows;
  }

  lemma FailedInSplit(steps: seq<Step>, order: nat)
    requires steps != []
    ensures FailedIn(steps, order) <==> (steps[0].Fail? && steps[0].order == order) || FailedIn(steps[1..], order)
  {
    if FailedIn(steps[1..], order) {
      var i :| 0 <= i < |steps[1..]| && steps[1..][i].Fail? && steps[1..][i].order == order;
      assert steps[i + 1] == steps[1..][i];
    }
    if FailedIn(steps, order) {
      var i :| 0 <= i < |steps| && steps[i].Fail? && steps[i].order == order;
      assert i > 0 ==> steps[1..][i - 1] == steps[i];
    }
  }

  lemma {:induction false} RunFails(w: World, steps: seq<Step>, order: nat)
    requires Inv(w) && Legal(w, steps) && ClaimedOrFailed(w, order)
    requires order < |Run(w, steps).books.orders| && Run(w, steps).books.orders[order].status != Paid
    ensures ClaimedOrFailed(Run(w, steps), order)
    ensures Run(w, steps).books.orders[order].status == Failed
            <==> w.books.orders[order].status == Failed || FailedIn(steps, order)
    decreases |steps|
  {
    hide Inv, Do, Enabled;
    if steps != [] {
      var w' := Do(w, steps[0]);
      StepKeeps(w, steps[0]);
      OrdersOverRun(w', steps[1..]);
      assert OrderKept(w.books.orders[order], w'.books.orders[order]);
      assert OrderKept(w'.books.orders[order], Run(w, steps).books.orders[order]);
      StepFails(w, steps[0], order);
      RunFails(w', steps[1..], order);
      FailedInSplit(steps, order);
    }
  }

  /**
   * A callback that has issued what it claimed gets the order paid if and only if no failure callback for
   * the order came in between.
   */
  lemma PaidUnlessFailed(w: World, steps: seq<Step>, pid: nat, now: int, id: nat)
    requires Inv(w) && Legal(w, steps) && Fulfilling(w, pid)
    requires w.books.orders[w.procs[pid].order].status == Processing
    requires var v := Run(w, steps);
             pid in v.procs && v.procs[pid].order == w.procs[pid].order && v.procs[pid].stage.Issued?
    ensures var v := Run(w, steps);
            FinalizePaid(v.books, v.procs[pid].order, v.procs[pid].stage.sub, now, id).Some?
            <==> !FailedIn(steps, w.procs[pid].order)
  {
    var v := Run(w, steps);
    RunKeeps(w, steps);
    assert FulfilmentOk(v, v.procs[pid]);
    RunFails(w, steps, w.procs[pid].order);
  }

  // The chains

  ghost predicate ChainsOk(b: Books) {
    forall user: nat :: Verifies(b.digest, ChainOf(b.ledger, user)) && InOrder(b.ledger, user)
  }

  /** The entry is newer, by time and id, than every entry of its user. */
  ghost predicate Timely(w: World, s: Step)
    requires Enabled(w, s)
  {
    s.Finalize? ==> Latest(w.books.ledger, w.books.orders[w.procs[s.pid].order].user, s.now, s.id)
  }

  ghost predicate AllTimely(w: World, steps: seq<Step>)
    requires Legal(w, steps)
    decreases |steps|
  {
    steps == [] || (Timely(w, steps[0]) && AllTimely(Do(w, steps[0]), steps[1..]))
  }

  lemma StepChains(w: World, s: Step)
    requires Enabled(w, s) && Timely(w, s) && ChainsOk(w.books)
    ensures ChainsOk(Do(w, s).books)
  {
    StepLedger(w, s);
    if s.Finalize? {
      var f := w.procs[s.pid];
      var b := ChargeFor(f.order, w.books.orders[f.order]);
      forall user: nat
        ensures Verifies(w.books.digest, ChainOf(Append(w.books.digest, w.books.ledger, b, s.now, s.id), user))
        ensures InOrder(Append(w.books.digest, w.books.ledger, b, s.now, s.id), user)
      {
        AppendInOrder(w.books.digest, w.books.ledger, b, s.now, s.id, user);
      }
    }
  }

  /** When every user's payments are finalized in order of time, every user's ledger is one verified chain. */
  lemma {:induction false} ChainsOverRun(w: World, steps: seq<Step>)
    requires ChainsOk(w.books) && Legal(w, steps) && AllTimely(w, steps)
    ensures ChainsOk(Run(w, steps).books) && Run(w, steps).books.digest == w.books.digest
    decreases |steps|
  {
    if steps != [] {
      StepLedger(w, steps[0]);
      StepChains(w, steps[0]);
      ChainsOverRun(Do(w, steps[0]), steps[1..]);
    }
  }

  /** No currency contains the separator. */
  ghost predicate CleanCurrencies(b: Books) {
    forall o :: 0 <= o < |b.orders| ==> '|' !in b.orders[o].currency
  }

  lemma {:induction false} ChainEntries(rows: seq<Entry>, user: nat)
    ensures forall e :: e in ChainOf(rows, user) ==> e in rows
  {
    if rows != [] {
      ChainEntries(rows[..|rows| - 1], user);
    }
  }

  lemma ChargesAreClean(b: Books, user: nat)
    requires LedgerMatches(b) && CleanCurrencies(b)
    ensures AllClean(ChainOf(b.ledger, user))
  {
    ChainEntries(b.ledger, user);
    var chain := ChainOf(b.ledger, user);
    forall i | 0 <= i < |chain| ensures Clean(chain[i].body) {
      assert chain[i] in b.ledger;
      var k :| 0 <= k < |b.ledger| && b.ledger[k] == chain[i];
      assert EntryMatches(b, b.ledger[k]);
    }
  }

  lemma StartsInOrder(w: World)
    requires Initial(w) && IsDigest(w.books.digest)
    ensures ChainsOk(w.books)
  {
  }

  /**
   * Whatever verified chain somebody presents with the head hash that a user's ledger has: it is that
   * ledger, entry by entry, or it exhibits a collision.
   */
  lemma ForgeriesCollide(w: World, steps: seq<Step>, user: nat, forged: seq<Entry>)
    requires Initial(w) && Legal(w, steps) && AllTimely(w, steps) && IsDigest(w.books.digest)
    requires CleanCurrencies(Run(w, steps).books)
    requires HeadHash(ChainOf(Run(w, steps).books.ledger, user)) == HeadHash(forged)
    requires Verifies(w.books.digest, forged) && AllClean(forged)
    ensures var chain := ChainOf(Run(w, steps).books.ledger, user);
            SameEntries(chain, forged) || Collision(w.books.digest, chain, forged)
  {
    StartsInOrder(w);
    hide Verifies, SameEntries, Collision, IsDigest, AllClean, LedgerMatches, CleanCurrencies, Legal, Run, AllTimely;
    ReachableBooks(w, steps);
    ChainsOverRun(w, steps);
    ChargesAreClean(Run(w, steps).books, user);
    TamperEvident(w.books.digest, ChainOf(Run(w, steps).books.ledger, user), forged);
  }

  // Payments

  /** The step is a failure of a paid order with a payment, or registers a payment out of line with its order. */
  predicate SplitsPayment(w: World, s: Step)
    requires Enabled(w, s)
  {
    match s
    case Fail(_, order) => w.books.orders[order].status == Paid && HasPayment(w.books, order)
    case RegisterPayment(_, order, status) => !PaymentMirrors(w.books, Payment(order, status))
    case _ => false
  }

  /** A step keeps payments in line with their orders if and only if it is none of these. */
  lemma StepMirrors(w: World, s: Step)
    requires Inv(w) && Enabled(w, s) && Mirrored(w.books)
    ensures Mirrored(Do(w, s).books) <==> !SplitsPayment(w, s)
  {
    hide BooksOk, IssuedOnce, RenewalsHonoured, ProcsOk, Append, Redeemable, HasRedeemed, Mirrored, PaymentMirrors;
    match s
    case Fail(_, order) =>
      assert OrdersShaped(w.books) by {
        BooksShaped(w);
      }
      FailureMirrors(w.books, order);
    case RegisterPayment(_, order, status) => RegisterMirrors(w.books, order, status);
    case Finalize(pid, now, id) => FinalizeMirrors(w.books, w.procs[pid].order, w.procs[pid].stage.sub, now, id);
    case _ => OrdersMirror(w.books, Do(w, s).books);
  }

  lemma BooksShaped(w: World)
    requires Inv(w)
    ensures OrdersShaped(w.books)
  {
  }

  ghost predicate NeverSplits(w: World, steps: seq<Step>)
    requires Legal(w, steps)
    decreases |steps|
  {
    steps == [] || (!SplitsPayment(w, steps[0]) && NeverSplits(Do(w, steps[0]), steps[1..]))
  }

  ghost predicate AlwaysMirrored(w: World, steps: seq<Step>)
    requires Legal(w, steps)
    decreases |steps|
  {
    Mirrored(w.books) && (steps == [] || AlwaysMirrored(Do(w, steps[0]), steps[1..]))
  }

  /** Payments stay in line with their orders throughout a run if and only if no step of it splits them. */
  lemma {:induction false} MirroredUnlessSplit(w: World, steps: seq<Step>)
    requires Inv(w) && Legal(w, steps) && Mirrored(w.books)
    ensures AlwaysMirrored(w, steps) <==> NeverSplits(w, steps)
    decreases |steps|
  {
    hide Inv, Do, Enabled, Mirrored, SplitsPayment;
    if steps != [] {
      StepKeeps(w, steps[0]);
      StepMirrors(w, steps[0]);
      if Mirrored(Do(w, steps[0]).books) {
        MirroredUnlessSplit(Do(w, steps[0]), steps[1..]);
      }
    }
  }
}

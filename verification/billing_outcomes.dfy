/** What becomes of an order that was claimed. */
module BillingOutcomes {
  import opened Text
  import opened Subscriptions
  import opened Ledger
  import opened BillingTables
  import opened BillingProtocol

  /** Some fulfilment of the order is under way. */
  predicate UnderWay(w: World, order: nat) {
    exists pid :: pid in w.procs && w.procs[pid].order == order
  }

  lemma StepLeftBehind(w: World, s: Step, order: nat)
    requires Inv(w) && Enabled(w, s) && ClaimedOrFailed(w, order) && !UnderWay(w, order)
    ensures ClaimedOrFailed(Do(w, s), order) && !UnderWay(Do(w, s), order)
    ensures order in Do(w, s).issuances <==> order in w.issuances
  {
    hide BooksOk, IssuedOnce, RenewalsHonoured, Append, Redeemable, HasRedeemed, RefersToRows;
    var v := Do(w, s);
    forall pid | pid in v.procs ensures v.procs[pid].order != order {
      assert pid in w.procs ==> w.procs[pid].order != order;
    }
  }

  /** A claimed order that no fulfilment is at work on any more is never issued again, and never paid. */
  lemma {:induction false} LeftBehindForEver(w: World, steps: seq<Step>, order: nat)
    requires Inv(w) && Legal(w, steps) && ClaimedOrFailed(w, order) && !UnderWay(w, order)
    ensures ClaimedOrFailed(Run(w, steps), order)
    ensures order in Run(w, steps).issuances <==> order in w.issuances
    decreases |steps|
  {
    hide Inv, Do, Enabled, UnderWay, ClaimedOrFailed;
    if steps != [] {
      StepKeeps(w, steps[0]);
      StepLeftBehind(w, steps[0], order);
      LeftBehindForEver(Do(w, steps[0]), steps[1..], order);
    }
  }

  // Why a fulfilment ends without a payment

  /** The order that a fulfilment is at work on. */
  function OrderOf(w: World, pid: nat): Order
    requires Fulfilling(w, pid)
  {
    w.books.orders[w.procs[pid].order]
  }

  lemma StepReasons(w: World, s: Step)
    requires Enabled(w, s)
    ensures s.IssueOk? || s.IssueFailed? ==> Fulfilling(w, s.pid) && OrderOf(w, s.pid).renew.None?
    ensures s.PlanMissing? ==>
              && Fulfilling(w, s.pid) && OrderOf(w, s.pid).renew.Some?
              && var plan, plans := OrderOf(w, s.pid).plan, w.books.catalogue.plans;
                 plan >= |plans| || !plans[plan].active
    ensures s.RenewRefused? ==>
              && Fulfilling(w, s.pid) && OrderOf(w, s.pid).renew.Some?
              && var sub, subs := OrderOf(w, s.pid).renew.value, w.books.subs;
                 sub >= |subs| || subs[sub].status == Deleted
    ensures s.FinalizeRefused? ==>
              && Fulfilling(w, s.pid) && w.procs[s.pid].stage.Issued?
              && (OrderOf(w, s.pid).status !in {WaitPayment, Processing} || w.procs[s.pid].stage.sub >= |w.books.subs|)
    ensures s.ClaimMissed? ==> s.order < |w.books.orders| && w.books.orders[s.order].status != WaitPayment
  {
  }

  /**
   * In every run, whenever a fulfilment gives up there is a reason in the tables of that moment: the plan of a
   * renewal is not there, the renewed subscription is deleted, or the order was failed; the issuer is asked for
   * new subscriptions only; and a claim is missed only on an order that does not wait for payment.
   */
  lemma {:induction false} ReasonsOverRun(w: World, steps: seq<Step>, k: nat)
    requires Inv(w) && Legal(w, steps) && k < |steps|
    ensures Legal(w, steps[..k])
    ensures var v, s := Run(w, steps[..k]), steps[k];
            && (s.IssueOk? || s.IssueFailed? ==> Fulfilling(v, s.pid) && OrderOf(v, s.pid).renew.None?)
            && (s.PlanMissing? ==>
                  && Fulfilling(v, s.pid) && OrderOf(v, s.pid).renew.Some?
                  && OrderOf(v, s.pid).plan < |v.books.catalogue.plans|
                  && !v.books.catalogue.plans[OrderOf(v, s.pid).plan].active)
            && (s.RenewRefused? ==>
                  && Fulfilling(v, s.pid) && OrderOf(v, s.pid).renew.Some?
                  && OrderOf(v, s.pid).renew.value < |v.books.subs|
                  && v.books.subs[OrderOf(v, s.pid).renew.value].status == Deleted)
            && (s.FinalizeRefused? ==> Fulfilling(v, s.pid) && OrderOf(v, s.pid).status == Failed)
            && (s.ClaimMissed? ==> s.order < |v.books.orders| && v.books.orders[s.order].status != WaitPayment)
    decreases |steps|
  {
    hide Do;
    if k == 0 {
      assert steps[..0] == [];
      StepReasons(w, steps[0]);
      if steps[0].PlanMissing? || steps[0].RenewRefused? || steps[0].FinalizeRefused? {
        OrderRefers(w, w.procs[steps[0].pid].order);
        assert FulfilmentOk(w, w.procs[steps[0].pid]);
      }
    } else {
      hide Inv, Enabled;
      StepKeeps(w, steps[0]);
      assert steps[1..][..k - 1] == steps[..k][1..];
      ReasonsOverRun(Do(w, steps[0]), steps[1..], k - 1);
    }
  }

  // How a fulfilment that has issued ends

  lemma LastStepPays(w: World, pid: nat, last: Step)
    requires Inv(w) && AtIssued(w, pid) && Enabled(w, last) && pid !in Do(w, last).procs
    requires ClaimedOrFailed(w, w.procs[pid].order)
    ensures var order, v := w.procs[pid].order, Do(w, last);
            && order < |v.books.orders|
            && (v.books.orders[order].status == Paid <==> !last.Stop? && w.books.orders[order].status == Processing)
            && (v.books.orders[order].status != Paid ==> ClaimedOrFailed(v, order) && !UnderWay(v, order))
  {
    hide BooksOk, IssuedOnce, RenewalsHonoured, Append;
    assert last.Finalize? || last.FinalizeRefused? || last.Stop?;
    assert FulfilmentOk(w, w.procs[pid]);
  }

  /**
   * An order that was issued and whose fulfilment has ended is paid if and only if no failure callback for it
   * came before the last step of the fulfilment, and that step was not an abort. This stays so for ever.
   */
  lemma PaidIffFinished(w: World, before: seq<Step>, last: Step, more: seq<Step>, pid: nat)
    requires Inv(w) && Fulfilling(w, pid) && w.books.orders[w.procs[pid].order].status == Processing
    requires Legal(w, before) && AtIssued(Run(w, before), pid) && Run(w, before).procs[pid].order == w.procs[pid].order
    requires Enabled(Run(w, before), last) && pid !in Do(Run(w, before), last).procs
    requires Legal(Do(Run(w, before), last), more)
    ensures var order, v := w.procs[pid].order, Run(Do(Run(w, before), last), more);
            && order < |v.books.orders|
            && (v.books.orders[order].status == Paid <==> !FailedIn(before, order) && !last.Stop?)
  {
    var order, u := w.procs[pid].order, Run(w, before);
    RunKeeps(w, before);
    assert ClaimedOrFailed(u, order) by {
      assert FulfilmentOk(u, u.procs[pid]);
    }
    assert ClaimedOrFailed(w, order);
    hide Inv, Do, Enabled, ClaimedOrFailed, UnderWay, AtIssued;
    assert u.books.orders[order].status != Paid by {
      NotPaidYet(u, order);
    }
    RunFails(w, before, order);
    LastStepPays(u, pid, last);
    StepKeeps(u, last);
    var x := Do(u, last);
    OrdersOverRun(x, more);
    if x.books.orders[order].status == Paid {
      assert OrderKept(x.books.orders[order], Run(x, more).books.orders[order]);
    } else {
      LeftBehindForEver(x, more, order);
      NotPaidYet(Run(x, more), order);
    }
    FailedOrNot(u, order);
  }

  lemma NotPaidYet(w: World, order: nat)
    requires ClaimedOrFailed(w, order)
    ensures order < |w.books.orders| && w.books.orders[order].status != Paid
  {
  }

  lemma FailedOrNot(w: World, order: nat)
    requires ClaimedOrFailed(w, order)
    ensures w.books.orders[order].status == Processing <==> w.books.orders[order].status != Failed
  {
  }

  // Whether a claimed order can still get paid

  /** The step is a migration that makes the deleted subscription active that the order renews. */
  predicate Revives(w: World, s: Step, order: nat)
    requires order < |w.books.orders|
  {
    s.MoveSub? && w.books.orders[order].renew == Some(s.sub) && !Extendable(w.books, s.sub)
  }

  ghost predicate Unrevived(w: World, steps: seq<Step>, order: nat)
    requires Legal(w, steps)
    decreases |steps|
  {
    steps == []
    || (order < |w.books.orders| && !Revives(w, steps[0], order) && Unrevived(Do(w, steps[0]), steps[1..], order))
  }

  ghost predicate Pays(w: World, steps: seq<Step>, order: nat) {
    && Legal(w, steps) && Unrevived(w, steps, order)
    && order < |Run(w, steps).books.orders| && Run(w, steps).books.orders[order].status == Paid
  }

  /** Some run pays the order, without a migration bringing the subscription back that it renews. */
  ghost predicate CanBePaid(w: World, order: nat) {
    exists steps :: Pays(w, steps, order)
  }

  /**
   * A fulfilment is at work on the order and can finish: it has issued, or it is about a new subscription, or
   * the subscription that it renews is not deleted and its plan was found or is there to be found.
   */
  predicate Workable(w: World, order: nat) {
    exists pid :: pid in w.procs && w.procs[pid].order == order && CanFinish(w, pid)
  }

  predicate CanFinish(w: World, pid: nat) {
    && Fulfilling(w, pid)
    && var renew := w.books.orders[w.procs[pid].order].renew;
       match w.procs[pid].stage
       case Issued(_) => true
       case Priced(_) => renew.Some? && Extendable(w.books, renew.value)
       case Claimed => renew.Some? ==> Extendable(w.books, renew.value) && PlanAvailable(w, pid)
  }

  lemma FinalizePays(w: World, pid: nat)
    requires Inv(w) && AtIssued(w, pid) && w.books.orders[w.procs[pid].order].status == Processing
    ensures CanBePaid(w, w.procs[pid].order)
  {
    assert FulfilmentOk(w, w.procs[pid]);
    hide Append;
    var steps := [Finalize(pid, 0, 0)];
    assert steps[1..] == [];
    assert Legal(Do(w, steps[0]), steps[1..]) && Unrevived(Do(w, steps[0]), steps[1..], w.procs[pid].order);
    assert Run(w, steps) == Do(w, steps[0]);
    assert Pays(w, steps, w.procs[pid].order);
  }

  lemma PaysAfter(w: World, s: Step, order: nat)
    requires Enabled(w, s) && order < |w.books.orders| && !Revives(w, s, order) && CanBePaid(Do(w, s), order)
    ensures CanBePaid(w, order)
  {
    hide Do, Enabled;
    var steps :| Pays(Do(w, s), steps, order);
    assert ([s] + steps)[1..] == steps;
    assert Pays(w, [s] + steps, order);
  }

  lemma IssuePays(w: World, s: Step)
    requires Inv(w) && Enabled(w, s) && (s.IssueOk? || s.RenewOk?)
    requires w.books.orders[w.procs[s.pid].order].status == Processing
    ensures CanBePaid(w, w.procs[s.pid].order)
  {
    var v := Do(w, s);
    StepKeeps(w, s);
    assert AtIssued(v, s.pid) && v.procs[s.pid].order == w.procs[s.pid].order;
    assert v.books.orders == w.books.orders;
    hide Inv, Do, Enabled;
    FinalizePays(v, s.pid);
    PaysAfter(w, s, w.procs[s.pid].order);
  }

  lemma WorkablePays(w: World, pid: nat)
    requires Inv(w) && Fulfilling(w, pid) && CanFinish(w, pid)
    requires w.books.orders[w.procs[pid].order].status == Processing
    ensures CanBePaid(w, w.procs[pid].order)
  {
    assert FulfilmentOk(w, w.procs[pid]);
    match w.procs[pid].stage
    case Issued(_) => FinalizePays(w, pid);
    case Priced(_) => IssuePays(w, RenewOk(pid, 0));
    case Claimed =>
      if Renews(w, pid) {
        var v := Do(w, PlanRead(pid));
        StepKeeps(w, PlanRead(pid));
        assert v.books == w.books && v.procs[pid].order == w.procs[pid].order && Enabled(v, RenewOk(pid, 0));
        hide Inv, Do;
        IssuePays(v, RenewOk(pid, 0));
        PaysAfter(w, PlanRead(pid), w.procs[pid].order);
      } else {
        IssuePays(w, IssueOk(pid, Sub(0, 0, 0, WireGuard, Active, 0)));
      }
  }

  /** No fulfilment that is at work on the order can finish. */
  ghost predicate Doomed(w: World, order: nat) {
    ClaimedOrFailed(w, order)
    && forall pid :: pid in w.procs && w.procs[pid].order == order ==> !CanFinish(w, pid)
  }

  lemma OrderRefers(w: World, order: nat)
    requires Inv(w) && order < |w.books.orders|
    ensures w.books.orders[order].plan < |w.books.catalogue.plans|
    ensures w.books.orders[order].renew.Some? ==> w.books.orders[order].renew.value < |w.books.subs|
  {
    assert OrderShaped(w.books, w.books.orders[order]);
  }

  /** Plans stay as they are, and a deleted subscription stays deleted unless a migration brings it back. */
  lemma StepRows(w: World, s: Step, sub: nat)
    requires Enabled(w, s) && sub < |w.books.subs| && !Extendable(w.books, sub)
    requires !(s.MoveSub? && s.sub == sub)
    ensures !Extendable(Do(w, s).books, sub)
  {
    hide Append, Redeemable, HasRedeemed, RefersToRows, SetPayments;
  }

  lemma StepPlans(w: World, s: Step)
    requires Enabled(w, s)
    ensures w.books.catalogue.plans <= Do(w, s).books.catalogue.plans
  {
    hide Append, Redeemable, HasRedeemed, RefersToRows, SetPayments;
  }

  /** What the other steps leave of a fulfilment: nothing, the same, or one step further. */
  lemma StepPhase(w: World, s: Step, pid: nat, order: nat)
    requires Enabled(w, s) && order < |w.books.orders| && w.books.orders[order].status != WaitPayment
    requires pid in Do(w, s).procs && Do(w, s).procs[pid].order == order
    ensures pid in w.procs && w.procs[pid].order == order
    ensures var f, f' := w.procs[pid], Do(w, s).procs[pid];
            || f' == f
            || (f.stage == Claimed && f'.stage.Priced? && Renews(w, pid) && PlanAvailable(w, pid))
            || (f'.stage.Issued? && CanFinish(w, pid))
  {
    hide CreateOrder, FinalizePaid, MarkFailed, SetPayments;
  }

  lemma StepDoomed(w: World, s: Step, order: nat)
    requires Inv(w) && Enabled(w, s) && Doomed(w, order) && !Revives(w, s, order)
    ensures Doomed(Do(w, s), order)
  {
    var v := Do(w, s);
    StepKeeps(w, s);
    OrderRefers(w, order);
    StepPlans(w, s);
    var renew := w.books.orders[order].renew;
    if renew.Some? && !Extendable(w.books, renew.value) {
      StepRows(w, s, renew.value);
    }
    assert OrderKept(w.books.orders[order], v.books.orders[order]);
    hide Inv, Do, Enabled, Extendable;
    forall pid | pid in v.procs && v.procs[pid].order == order ensures !CanFinish(v, pid) {
      StepPhase(w, s, pid, order);
      assert !CanFinish(w, pid);
    }
    assert ClaimedOrFailed(v, order) by {
      StepStaysUnpaid(w, s, order);
    }
  }

  lemma StepStaysUnpaid(w: World, s: Step, order: nat)
    requires Inv(w) && Enabled(w, s) && Doomed(w, order)
    ensures ClaimedOrFailed(Do(w, s), order)
  {
    hide BooksOk, IssuedOnce, RenewalsHonoured, Append, Redeemable, HasRedeemed, RefersToRows, SetPayments;
  }

  lemma {:induction false} DoomedForEver(w: World, steps: seq<Step>, order: nat)
    requires Inv(w) && Legal(w, steps) && Doomed(w, order) && Unrevived(w, steps, order)
    ensures Doomed(Run(w, steps), order)
    decreases |steps|
  {
    hide Inv, Do, Enabled, Doomed;
    if steps != [] {
      StepKeeps(w, steps[0]);
      StepDoomed(w, steps[0], order);
      DoomedForEver(Do(w, steps[0]), steps[1..], order);
    }
  }

  /**
   * A claimed order can still get paid, without a migration reviving the subscription that it renews, if and
   * only if a fulfilment is at work on it that can finish.
   */
  lemma PayableIffWorkable(w: World, order: nat)
    requires Inv(w) && order < |w.books.orders| && w.books.orders[order].status == Processing
    ensures CanBePaid(w, order) <==> Workable(w, order)
  {
    if Workable(w, order) {
      var pid :| pid in w.procs && w.procs[pid].order == order && CanFinish(w, pid);
      WorkablePays(w, pid);
    } else {
      assert Doomed(w, order);
      hide Inv, Doomed, Workable;
      if CanBePaid(w, order) {
        var steps :| Pays(w, steps, order);
        DoomedForEver(w, steps, order);
        DoomedIsUnpaid(Run(w, steps), order);
      }
    }
  }

  lemma DoomedIsUnpaid(w: World, order: nat)
    requires Doomed(w, order)
    ensures order < |w.books.orders| && w.books.orders[order].status != Paid
  {
  }
}

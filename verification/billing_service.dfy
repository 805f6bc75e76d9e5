/**
 * The billing service as sequential code. Between any two of its steps Interfere lets the rest of the system
 * take any legal steps; the ghost trace records who did what.
 */
module BillingService {
  import opened Text
  import opened Traces
  import opened Subscriptions
  import opened Ledger
  import opened Pricing
  import opened BillingTables
  import opened BillingRepository
  import opened BillingProtocol

  /** Skipped is what a caller gets that does not claim the order. */
  datatype Outcome =
    | Fulfilled(sub: nat)
    | Skipped(stored: Option<nat>)
    | Errored

  datatype Reply = Handled | OrderNotFound | Waiting | HandlerError

  datatype Purchase =
    | Bought(order: nat)
    | GatewayError(order: nat)
    | Unrecorded(order: nat)
    | BadRequest
    | PlanNotFound
    | BadCode
    | TooManyPending
    | NotPlaced(why: Placed)

  const PENDING_WINDOW := 600
  const MAX_PENDING := 5

  /** What the issuer is asked for. */
  datatype CreateInput = CreateInput(user: nat, country: nat, protocol: Protocol, plan: nat)

  /**
   * What the issuer answers to each request, None for a failure, and what the clock and the random source give to
   * the transactions.
   */
  datatype Answers = Answers(issued: CreateInput -> Option<Sub>, extendedAt: int, paidAt: int, entryId: nat)

  /** What the issuer creates is active. */
  ghost predicate IssuesActive(a: Answers) {
    forall input :: a.issued(input).Some? ==> a.issued(input).value.status == Active
  }

  /** What the gateway answers, None for a refusal, and whether its payment could be recorded. */
  datatype Gateway = Gateway(answer: Option<PaymentStatus>, recorded: bool)

  /** The steps that issue: one call of the issuer, or looking up the plan and extending. */
  ghost predicate Issuing(steps: seq<Step>, pid: nat, input: CreateInput, a: Answers) {
    || (a.issued(input).Some? && steps == [IssueOk(pid, a.issued(input).value)])
    || steps == [PlanRead(pid), RenewOk(pid, a.extendedAt)]
  }

  /** The steps of a fulfilment that cannot issue; each of them has its reason as its guard. */
  ghost predicate NotIssuing(steps: seq<Step>, pid: nat, input: CreateInput, a: Answers) {
    || (a.issued(input).None? && steps == [IssueFailed(pid)])
    || steps == [PlanMissing(pid)]
    || steps == [PlanRead(pid), RenewRefused(pid)]
  }

  /** The steps of one fulfilment after its claim. */
  ghost predicate DeliverTrail(rest: seq<Step>, pid: nat, input: CreateInput, a: Answers, ok: bool) {
    if ok then
      && rest != [] && rest[|rest| - 1] == Finalize(pid, a.paidAt, a.entryId)
      && Issuing(rest[..|rest| - 1], pid, input, a)
    else
      || NotIssuing(rest, pid, input, a)
      || (rest != [] && rest[|rest| - 1] == FinalizeRefused(pid) && Issuing(rest[..|rest| - 1], pid, input, a))
  }

  /** The steps of one fulfilment, by its outcome; input is what the issuer is asked for if the order is no renewal. */
  ghost predicate FulfilTrail(mine: seq<Step>, pid: nat, order: nat, input: CreateInput, a: Answers, r: Outcome) {
    if r.Skipped? then mine == [ClaimMissed(pid, order)]
    else mine != [] && mine[0] == ClaimOrder(pid, order) && DeliverTrail(mine[1..], pid, input, a, r.Fulfilled?)
  }

  /** What the outcome says about the order in the end. */
  predicate OutcomeHolds(b: Books, order: nat, r: Outcome) {
    && order < |b.orders| && b.orders[order].status != WaitPayment
    && match r
       case Fulfilled(sub) =>
         && b.orders[order].status == Paid && b.orders[order].subscription == Some(sub)
         && (b.orders[order].renew.Some? ==> b.orders[order].renew == Some(sub))
       case Skipped(stored) => stored == b.orders[order].subscription
       case Errored => b.orders[order].status == Processing || b.orders[order].status == Failed
  }

  lemma IssuerTrail(pid: nat, input: CreateInput, a: Answers)
    ensures if a.issued(input).Some? then Issuing([IssueOk(pid, a.issued(input).value)], pid, input, a)
            else NotIssuing([IssueFailed(pid)], pid, input, a)
  {
  }

  lemma PlanForward(b: Books, b': Books, plan: nat)
    requires Forward(b, b') && plan < |b.catalogue.plans|
    ensures plan < |b'.catalogue.plans| && b'.catalogue.plans[plan] == b.catalogue.plans[plan]
  {
  }

  lemma UnpaidOutcome(w: World, order: nat)
    requires ClaimedOrFailed(w, order)
    ensures forall b: Books :: b.orders == w.books.orders ==> OutcomeHolds(b, order, Errored)
  {
  }

  /** What finalizing a fulfilment comes to. */
  lemma FinalizeOutcome(w: World, pid: nat, now: int, id: nat)
    requires AtIssued(w, pid) && FulfilmentOk(w, w.procs[pid])
    ensures var f := w.procs[pid];
            var r := FinalizePaid(w.books, f.order, f.stage.sub, now, id);
            && (r.Some? <==> Finalizable(w, pid))
            && (r.Some? ==> OutcomeHolds(r.value, f.order, Fulfilled(f.stage.sub)))
            && (r.None? ==> OutcomeHolds(w.books, f.order, Errored))
  {
    hide Append, SetPayments;
  }

  /** What no step of anybody undoes. */
  ghost predicate Forward(b: Books, b': Books) {
    OrdersKept(b, b') && |b.subs| <= |b'.subs| && b.ledger <= b'.ledger && CatalogueGrows(b.catalogue, b'.catalogue)
  }

  lemma StepForward(w: World, s: Step)
    requires Inv(w) && Enabled(w, s)
    ensures Forward(w.books, Do(w, s).books)
  {
    hide Inv, OrdersKept;
    StepKeeps(w, s);
    StepLedger(w, s);
    RowsStay(w, s);
  }

  lemma RowsStay(w: World, s: Step)
    requires Enabled(w, s)
    ensures |w.books.subs| <= |Do(w, s).books.subs| && CatalogueGrows(w.books.catalogue, Do(w, s).books.catalogue)
  {
    hide Redeemable, HasRedeemed, RefersToRows, Append;
  }

  lemma ForwardTransitive(a: Books, b: Books, c: Books)
    requires Forward(a, b) && Forward(b, c)
    ensures Forward(a, c)
  {
    FollowsTransitive(a, b, c);
  }

  lemma SameForward(b: Books)
    ensures Forward(b, b)
  {
  }

  lemma OrderForward(b: Books, b': Books, order: nat)
    requires Forward(b, b') && order < |b.orders|
    ensures order < |b'.orders| && b'.orders[order].renew == b.orders[order].renew
    ensures b'.orders[order].plan == b.orders[order].plan && b'.orders[order].user == b.orders[order].user
    ensures b'.orders[order].country == b.orders[order].country
    ensures b'.orders[order].protocol == b.orders[order].protocol
    ensures b.orders[order].status != WaitPayment ==> b'.orders[order].status != WaitPayment
    ensures b.orders[order].status == Paid || b.orders[order].status == Failed ==>
              b'.orders[order].status == b.orders[order].status
    ensures b.orders[order].status == Paid ==> b'.orders[order] == b.orders[order]
  {
    assert OrderKept(b.orders[order], b'.orders[order]);
  }

  lemma {:induction false} RunForward(w: World, steps: seq<Step>)
    requires Inv(w) && Legal(w, steps)
    ensures Forward(w.books, Run(w, steps).books)
    decreases |steps|
  {
    hide Inv, Do, Enabled, Forward;
    if steps == [] {
      SameForward(w.books);
    } else {
      StepKeeps(w, steps[0]);
      StepForward(w, steps[0]);
      RunForward(Do(w, steps[0]), steps[1..]);
      ForwardTransitive(w.books, Do(w, steps[0]).books, Run(w, steps).books);
    }
  }

  /**
   * Whatever steps others take, however many: what an operation may rely on still holds. So the contract of
   * Interfere admits them all.
   */
  lemma OthersAllowed(start: World, trace: seq<Step>, steps: seq<Step>, pid: nat)
    requires Inv(start) && Legal(start, trace) && Legal(Run(start, trace), steps)
    requires forall i :: 0 <= i < |steps| ==> Owner(steps[i]) != Some(pid)
    ensures Legal(start, trace + steps)
    ensures var w, v := Run(start, trace), Run(start, trace + steps);
            && Inv(v) && v == Run(w, steps) && Forward(w.books, v.books)
            && (pid in v.procs <==> pid in w.procs) && (pid in w.procs ==> v.procs[pid] == w.procs[pid])
    ensures Took(false, trace, trace + steps, Owner, pid, [])
  {
    hide Inv, Forward, Legal, Run, Owner;
    RunKeeps(start, trace);
    RunConcat(start, trace, steps);
    RunKeeps(Run(start, trace), steps);
    RunForward(Run(start, trace), steps);
    OthersLeave(Run(start, trace), steps, pid);
    NothingOwned(steps, Owner, pid);
    assert (trace + steps)[|trace|..] == steps;
  }

  /** The running service. When alone holds nobody else takes steps, which shows exactly what a method does itself. */
  class Cashier {
    const repo: Repository
    ghost var procs: map<nat, Fulfilment>
    ghost var issuances: seq<nat>
    ghost var trace: seq<Step>
    ghost const start: World
    ghost const alone: bool

    constructor (repo: Repository, ghost alone: bool)
      requires repo.orders == [] && repo.payments == [] && repo.redemptions == [] && repo.ledger == []
      requires repo.promos == []
      ensures Valid() && this.repo == repo && this.alone == alone && trace == [] && procs == map[] && issuances == []
    {
      this.repo, this.alone := repo, alone;
      procs, issuances, trace := map[], [], [];
      start := World(repo.Tables(), map[], []);
      new;
      InitialInv(start);
    }

    ghost function Now(): World
      reads this, repo
    {
      World(repo.Tables(), procs, issuances)
    }

    ghost predicate Valid()
      reads this, repo
    {
      Inv(start) && Legal(start, trace) && Run(start, trace) == Now()
    }

    lemma ValidInv()
      requires Valid()
      ensures Inv(Now())
    {
      RunKeeps(start, trace);
    }

    /** A fulfilment under way is about an order that is claimed or failed. */
    lemma InProgress(pid: nat)
      requires Valid() && pid in procs
      ensures ClaimedOrFailed(Now(), procs[pid].order) && FulfilmentOk(Now(), procs[pid])
      ensures repo.orders[procs[pid].order].plan < |repo.catalogue.plans|
    {
      ValidInv();
      assert FulfilmentOk(Now(), procs[pid]);
      assert OrderShaped(repo.Tables(), repo.orders[procs[pid].order]);
    }

    /** The bookkeeping of a step of one operation whose effect on the tables has just happened. */
    ghost method Record(w: World, s: Step, pid: nat)
      requires Inv(start) && Legal(start, trace) && Run(start, trace) == w && Enabled(w, s)
      requires repo.Tables() == Do(w, s).books && Owner(s) == Some(pid)
      modifies this`procs, this`issuances, this`trace
      ensures Valid() && Now() == Do(w, s) && Forward(w.books, repo.Tables())
      ensures trace == old(trace) + [s] && Took(alone, old(trace), trace, Owner, pid, [s])
    {
      hide Do, Enabled, Forward, Inv, Took, Owner;
      RunKeeps(start, trace);
      StepForward(w, s);
      RunAppend(start, trace, s);
      TookOne(alone, trace, s, Owner, pid);
      procs, issuances, trace := Do(w, s).procs, Do(w, s).issuances, trace + [s];
    }

    /**
     * The rest of the system takes any number of steps; callers may rely on nothing but this contract, which
     * OthersAllowed shows to admit all steps of others.
     */
    method Interfere(ghost pid: nat)
      requires Valid()
      modifies this, repo
      ensures Valid() && Forward(old(repo.Tables()), repo.Tables())
      ensures Took(alone, old(trace), trace, Owner, pid, [])
      ensures (pid in procs <==> pid in old(procs)) && (pid in procs ==> procs[pid] == old(procs)[pid])
      ensures alone ==> Now() == old(Now())
    {
      SameForward(repo.Tables());
      TookNothing(alone, trace, Owner, pid);
    }

    /** The claim of an order, by one statement. */
    method Claim(ghost pid: nat, order: nat) returns (claimed: bool)
      requires Valid() && pid !in procs && order < |repo.orders|
      modifies this, repo
      ensures Valid() && Forward(old(repo.Tables()), repo.Tables())
      ensures Took(alone, old(trace), trace, Owner, pid,
                   [if claimed then ClaimOrder(pid, order) else ClaimMissed(pid, order)])
      ensures claimed == (old(repo.orders)[order].status == WaitPayment)
      ensures procs == if claimed then old(procs)[pid := Fulfilment(order, Claimed)] else old(procs)
      ensures repo.catalogue == old(repo.catalogue)
    {
      ghost var w := Now();
      hide Inv, Legal, Run, Forward, Took;
      claimed := repo.ClaimForProvisioning(order);
      if claimed {
        Record(w, ClaimOrder(pid, order), pid);
      } else {
        Record(w, ClaimMissed(pid, order), pid);
      }
    }

    /** The lookup of the plan of a renewal; it ends the fulfilment if there is none. */
    method ReadPlan(ghost pid: nat, order: nat) returns (found: bool)
      requires Valid() && pid in procs && procs[pid] == Fulfilment(order, Claimed)
      requires order < |repo.orders| && repo.orders[order].renew.Some?
      modifies this, repo
      ensures Valid() && Forward(old(repo.Tables()), repo.Tables()) && repo.Tables() == old(repo.Tables())
      ensures Took(alone, old(trace), trace, Owner, pid, [if found then PlanRead(pid) else PlanMissing(pid)])
      ensures found ==> pid in procs && procs[pid].order == order && procs[pid].stage.Priced?
    {
      hide Inv, Legal, Run, Forward, Took;
      var plan := repo.orders[order].plan;
      found := plan < |repo.catalogue.plans| && repo.catalogue.plans[plan].active;
      if found {
        Record(Now(), PlanRead(pid), pid);
      } else {
        Record(Now(), PlanMissing(pid), pid);
      }
    }

    /** The extension of the renewed subscription, by the days that were looked up; a refusal ends the fulfilment. */
    method Extend(ghost pid: nat, order: nat, days: int, now: int) returns (ok: bool)
      requires Valid() && pid in procs && procs[pid] == Fulfilment(order, Priced(days))
      requires order < |repo.orders| && repo.orders[order].renew.Some?
      modifies this, repo
      ensures Valid() && Forward(old(repo.Tables()), repo.Tables()) && repo.orders == old(repo.orders)
      ensures Took(alone, old(trace), trace, Owner, pid, [if ok then RenewOk(pid, now) else RenewRefused(pid)])
      ensures ok ==> pid in procs && procs[pid] == Fulfilment(order, Issued(repo.orders[order].renew.value))
    {
      ghost var w := Now();
      hide Inv, Legal, Run, Forward, Took;
      ExtendableMeans(repo.Tables(), repo.orders[order].renew.value, days, now);
      ok := repo.ExtendSubscription(repo.orders[order].renew.value, days, now);
      if ok {
        Record(w, RenewOk(pid, now), pid);
      } else {
        Record(w, RenewRefused(pid), pid);
      }
    }

    /** One call of the issuer, with the columns of the order; a failed one ends the fulfilment. */
    method CallIssuer(ghost pid: nat, order: nat, a: Answers) returns (sub: Option<nat>, ghost s: Step)
      requires Valid() && pid in procs && procs[pid] == Fulfilment(order, Claimed)
      requires order < |repo.orders| && repo.orders[order].renew.None? && IssuesActive(a)
      modifies this, repo
      ensures Valid() && Forward(old(repo.Tables()), repo.Tables()) && repo.orders == old(repo.orders)
      ensures Took(alone, old(trace), trace, Owner, pid, [s])
      ensures var o := repo.orders[order];
              var issued := a.issued(CreateInput(o.user, o.country, o.protocol, o.plan));
              && s == (if issued.Some? then IssueOk(pid, issued.value) else IssueFailed(pid))
              && (sub.Some? <==> issued.Some?)
      ensures sub.Some? ==> pid in procs && procs[pid] == Fulfilment(order, Issued(sub.value))
    {
      ghost var w := Now();
      hide Inv, Legal, Run, Forward, Took;
      var o := repo.orders[order];
      var issued := a.issued(CreateInput(o.user, o.country, o.protocol, o.plan));
      if issued.None? {
        s := IssueFailed(pid);
        Record(w, s, pid);
        return None, s;
      }
      sub, s := Some(|repo.subs|), IssueOk(pid, issued.value);
      repo.subs := repo.subs + [issued.value];
      Record(w, s, pid);
    }

    /** The renewal branch of fulfill, up to the extension. */
    method Renew(ghost pid: nat, order: nat, ghost input: CreateInput, a: Answers)
      returns (sub: Option<nat>, ghost steps: seq<Step>)
      requires Valid() && pid in procs && procs[pid] == Fulfilment(order, Claimed)
      requires order < |repo.orders| && repo.orders[order].renew.Some?
      modifies this, repo
      ensures Valid() && Forward(old(repo.Tables()), repo.Tables())
      ensures Took(alone, old(trace), trace, Owner, pid, steps)
      ensures if sub.Some? then Issuing(steps, pid, input, a) else NotIssuing(steps, pid, input, a)
      ensures sub.Some? ==> pid in procs && procs[pid] == Fulfilment(order, Issued(sub.value))
      ensures sub.None? ==> OutcomeHolds(repo.Tables(), order, Errored)
    {
      hide Inv, Legal, Run, Do, Enabled, Forward, Took, FulfilmentOk, OutcomeHolds;
      ghost var t0, b0 := trace, repo.Tables();
      InProgress(pid);
      UnpaidOutcome(Now(), order);
      var days := if repo.orders[order].plan < |repo.catalogue.plans|
                  then repo.catalogue.plans[repo.orders[order].plan].days else 0;
      var found := ReadPlan(pid, order);
      ghost var t1 := trace;
      if !found {
        return None, [PlanMissing(pid)];
      }
      Interfere(pid);
      ghost var t2, b2 := trace, repo.Tables();
      TookThen(alone, t0, t1, t2, Owner, pid, [PlanRead(pid)], [], [PlanRead(pid)]);
      OrderForward(b0, b2, order);
      PlanForward(b0, b2, b0.orders[order].plan);
      PricedDays(pid);
      InProgress(pid);
      UnpaidOutcome(Now(), order);
      var ok := Extend(pid, order, days, a.extendedAt);
      ForwardTransitive(b0, b2, repo.Tables());
      ghost var last := if ok then RenewOk(pid, a.extendedAt) else RenewRefused(pid);
      steps := [PlanRead(pid), last];
      TookThen(alone, t0, t2, trace, Owner, pid, [PlanRead(pid)], [last], steps);
      sub := if ok then repo.orders[order].renew else None;
    }

    /** FinalizePaid for a fulfilment, which ends either way. */
    method Settle(ghost pid: nat, order: nat, sub: nat, a: Answers) returns (ok: bool, ghost s: Step)
      requires Valid() && pid in procs && procs[pid] == Fulfilment(order, Issued(sub)) && order < |repo.orders|
      modifies this, repo
      ensures Valid() && Forward(old(repo.Tables()), repo.Tables())
      ensures Took(alone, old(trace), trace, Owner, pid, [s])
      ensures s == if ok then Finalize(pid, a.paidAt, a.entryId) else FinalizeRefused(pid)
      ensures OutcomeHolds(repo.Tables(), order, if ok then Fulfilled(sub) else Errored)
    {
      hide Inv, Legal, Run, Forward, Took, FulfilmentOk, FinalizePaid, OutcomeHolds, Finalizable;
      InProgress(pid);
      ghost var w := Now();
      FinalizeOutcome(w, pid, a.paidAt, a.entryId);
      ok := repo.FinalizePaid(order, sub, a.paidAt, a.entryId);
      s := if ok then Finalize(pid, a.paidAt, a.entryId) else FinalizeRefused(pid);
      Record(w, s, pid);
    }

    /** The rest of fulfill for an order that was claimed; rest lists its steps. */
    method Deliver(ghost pid: nat, order: nat, ghost input: CreateInput, a: Answers)
      returns (delivered: Option<nat>, ghost rest: seq<Step>)
      requires Valid() && pid in procs && procs[pid] == Fulfilment(order, Claimed) && order < |repo.orders|
      requires IssuesActive(a)
      requires var o := repo.orders[order]; input == CreateInput(o.user, o.country, o.protocol, o.plan)
      modifies this, repo
      ensures Valid() && Forward(old(repo.Tables()), repo.Tables())
      ensures Took(alone, old(trace), trace, Owner, pid, rest) && DeliverTrail(rest, pid, input, a, delivered.Some?)
      ensures OutcomeHolds(repo.Tables(), order, if delivered.Some? then Fulfilled(delivered.value) else Errored)
    {
      hide Inv, Legal, Run, Do, Enabled, Forward, Took, FulfilmentOk, OutcomeHolds, Issuing, NotIssuing;
      ghost var t0, b0 := trace, repo.Tables();
      Interfere(pid);
      ghost var t1, b1 := trace, repo.Tables();
      OrderForward(b0, b1, order);
      InProgress(pid);
      UnpaidOutcome(Now(), order);
      var sub: Option<nat>;
      if repo.orders[order].renew.Some? {
        sub, rest := Renew(pid, order, input, a);
      } else {
        ghost var asked: Step;
        sub, asked := CallIssuer(pid, order, a);
        rest := [asked];
        IssuerTrail(pid, input, a);
      }
      ghost var t2, b2 := trace, repo.Tables();
      TookThen(alone, t0, t1, t2, Owner, pid, [], rest, rest);
      ForwardTransitive(b0, b1, b2);
      OrderForward(b0, b2, order);
      delivered := None;
      if sub.None? {
        return;
      }
      Interfere(pid);
      ghost var t3, b3 := trace, repo.Tables();
      TookThen(alone, t0, t2, t3, Owner, pid, rest, [], rest);
      ForwardTransitive(b0, b2, b3);
      OrderForward(b0, b3, order);
      ghost var last: Step;
      var ok: bool;
      ok, last := Settle(pid, order, sub.value, a);
      TookThen(alone, t0, t3, trace, Owner, pid, rest, [last], rest + [last]);
      ForwardTransitive(b0, b3, repo.Tables());
      assert (rest + [last])[..|rest + [last]| - 1] == rest;
      rest := rest + [last];
      delivered := if ok then sub else None;
    }

    /**
     * fulfill: a caller that misses the claim takes no other step and gets what is stored. The one that claims
     * the order issues once and finalizes, and fails only for a reason: the plan is not there, the subscription
     * to renew is deleted, the issuer fails, or the order was failed meanwhile.
     */
    method Fulfill(ghost pid: nat, order: nat, ghost input: CreateInput, a: Answers)
      returns (r: Outcome, ghost mine: seq<Step>)
      requires Valid() && pid !in procs && order < |repo.orders|
      requires IssuesActive(a)
      requires var o := repo.orders[order]; input == CreateInput(o.user, o.country, o.protocol, o.plan)
      modifies this, repo
      ensures Valid() && Forward(old(repo.Tables()), repo.Tables())
      ensures Took(alone, old(trace), trace, Owner, pid, mine) && FulfilTrail(mine, pid, order, input, a, r)
      ensures OutcomeHolds(repo.Tables(), order, r)
      ensures r.Skipped? <==> old(repo.orders)[order].status != WaitPayment
    {
      hide Inv, Legal, Run, Do, Enabled, Forward, Took, DeliverTrail;
      ghost var t0, b0 := trace, repo.Tables();
      var claimed := Claim(pid, order);
      ghost var t1, b1 := trace, repo.Tables();
      OrderForward(b0, b1, order);
      if !claimed {
        Interfere(pid);
        mine := [ClaimMissed(pid, order)];
        TookThen(alone, t0, t1, trace, Owner, pid, mine, [], mine);
        ForwardTransitive(b0, b1, repo.Tables());
        OrderForward(b0, repo.Tables(), order);
        return Skipped(repo.orders[order].subscription), mine;
      }
      ghost var rest: seq<Step>;
      var delivered: Option<nat>;
      delivered, rest := Deliver(pid, order, input, a);
      mine := [ClaimOrder(pid, order)] + rest;
      assert mine[1..] == rest;
      TookThen(alone, t0, t1, trace, Owner, pid, [ClaimOrder(pid, order)], rest, mine);
      ForwardTransitive(b0, b1, repo.Tables());
      r := if delivered.Some? then Fulfilled(delivered.value) else Errored;
    }

    /** A fulfilment that has looked up its plan has the days of it. */
    lemma PricedDays(pid: nat)
      requires Valid() && pid in procs && procs[pid].stage.Priced?
      ensures procs[pid].order < |repo.orders|
      ensures HasDays(repo.Tables(), repo.orders[procs[pid].order].plan, procs[pid].stage.days)
    {
      ValidInv();
      assert FulfilmentOk(Now(), procs[pid]);
    }

    /** FulfillOrder: an unknown order is an error and changes nothing; otherwise the outcome is that of fulfill. */
    method FulfillOrder(ghost pid: nat, order: nat, a: Answers) returns (r: Option<Outcome>, ghost mine: seq<Step>)
      requires Valid() && pid !in procs
      requires IssuesActive(a)
      modifies this, repo
      ensures Valid() && Forward(old(repo.Tables()), repo.Tables())
      ensures Took(alone, old(trace), trace, Owner, pid, mine)
      ensures r.None? <==> order >= |old(repo.orders)|
      ensures r.None? ==> mine == [] && repo.Tables() == old(repo.Tables())
      ensures r.Some? ==> OutcomeHolds(repo.Tables(), order, r.value)
      ensures r.Some? ==>
                var o := old(repo.orders)[order];
                FulfilTrail(mine, pid, order, CreateInput(o.user, o.country, o.protocol, o.plan), a, r.value)
    {
      hide Inv, Legal, Run, Do, Enabled, Forward, Took, FulfilTrail, OutcomeHolds;
      ghost var t0, b0 := trace, repo.Tables();
      if order >= |repo.orders| {
        SameForward(b0);
        TookNothing(alone, t0, Owner, pid);
        return None, [];
      }
      Interfere(pid);
      ghost var t1, b1 := trace, repo.Tables();
      OrderForward(b0, b1, order);
      var outcome: Outcome;
      ghost var o := b0.orders[order];
      outcome, mine := Fulfill(pid, order, CreateInput(o.user, o.country, o.protocol, o.plan), a);
      TookThen(alone, t0, t1, trace, Owner, pid, [], mine, mine);
      ForwardTransitive(b0, b1, repo.Tables());
      r := Some(outcome);
    }

    /** MarkFailed as one step. */
    method MarkFailed(ghost pid: nat, order: nat)
      requires Valid() && order < |repo.orders|
      modifies this, repo
      ensures Valid() && Forward(old(repo.Tables()), repo.Tables())
      ensures Took(alone, old(trace), trace, Owner, pid, [Fail(pid, order)])
      ensures repo.Tables() == BillingTables.MarkFailed(old(repo.Tables()), order)
      ensures order < |repo.orders| && (repo.orders[order].status == Paid || repo.orders[order].status == Failed)
    {
      ghost var w := Now();
      ShapedStatus(order);
      hide Inv, Legal, Run, Forward, Took;
      repo.MarkFailed(order);
      Record(w, Fail(pid, order), pid);
    }

    lemma ShapedStatus(order: nat)
      requires Valid() && order < |repo.orders|
      ensures repo.orders[order].status in {WaitPayment, Processing, Paid, Failed}
    {
      ValidInv();
      assert OrderShaped(repo.Tables(), repo.orders[order]);
    }

    /**
     * HandleWebhook after parsing. A success callback is a fulfilment, and the reply is an error exactly when
     * that is one; a failure callback is one failure, and leaves the order failed or paid; any other callback
     * takes no step.
     */
    method HandleWebhook(ghost pid: nat, order: nat, status: PaymentStatus, a: Answers)
      returns (reply: Reply, ghost r: Outcome, ghost mine: seq<Step>)
      requires Valid() && pid !in procs
      requires IssuesActive(a)
      modifies this, repo
      ensures Valid() && Forward(old(repo.Tables()), repo.Tables())
      ensures Took(alone, old(trace), trace, Owner, pid, mine)
      ensures reply == OrderNotFound <==> order >= |old(repo.orders)|
      ensures reply == Waiting <==> order < |old(repo.orders)| && status != Success && status != Failure
      ensures reply == OrderNotFound || reply == Waiting ==> mine == []
      ensures order < |old(repo.orders)| && status == Success ==>
                var o := old(repo.orders)[order];
                FulfilTrail(mine, pid, order, CreateInput(o.user, o.country, o.protocol, o.plan), a, r)
      ensures order < |old(repo.orders)| && status == Success ==>
                && OutcomeHolds(repo.Tables(), order, r)
                && reply == if r.Errored? then HandlerError else Handled
      ensures order < |old(repo.orders)| && status == Failure ==>
                && reply == Handled && mine == [Fail(pid, order)] && order < |repo.orders|
                && (repo.orders[order].status == Paid || repo.orders[order].status == Failed)
    {
      hide Inv, Legal, Run, Do, Enabled, Forward, Took, FulfilTrail, OutcomeHolds, BillingTables.MarkFailed;
      ghost var t0, b0 := trace, repo.Tables();
      mine, r := [], Errored;
      TookNothing(alone, t0, Owner, pid);
      SameForward(b0);
      if order >= |repo.orders| {
        reply := OrderNotFound;
        return;
      }
      Interfere(pid);
      ghost var t1, b1 := trace, repo.Tables();
      OrderForward(b0, b1, order);
      if status == Success {
        var outcome: Outcome;
        ghost var o := b0.orders[order];
        outcome, mine := Fulfill(pid, order, CreateInput(o.user, o.country, o.protocol, o.plan), a);
        r := outcome;
        reply := if outcome.Errored? then HandlerError else Handled;
      } else if status == Failure {
        MarkFailed(pid, order);
        mine := [Fail(pid, order)];
        reply := Handled;
      } else {
        reply := Waiting;
        return;
      }
      TookThen(alone, t0, t1, trace, Owner, pid, [], mine, mine);
      ForwardTransitive(b0, b1, repo.Tables());
    }

    /** The gateway part of Buy, for an order that exists. */
    method RequestPayment(ghost pid: nat, order: nat, g: Gateway) returns (r: Purchase, ghost rest: seq<Step>)
      requires Valid() && order < |repo.orders|
      modifies this, repo
      ensures Valid() && Forward(old(repo.Tables()), repo.Tables())
      ensures Took(alone, old(trace), trace, Owner, pid, rest) && PaymentTrail(rest, pid, order, g, r)
      ensures r.GatewayError? ==>
                && order < |repo.orders|
                && (repo.orders[order].status == Paid || repo.orders[order].status == Failed)
    {
      hide Inv, Legal, Run, Forward, Took, BillingTables.MarkFailed;
      if g.answer.None? {
        MarkFailed(pid, order);
        return GatewayError(order), [Fail(pid, order)];
      }
      if !g.recorded {
        SameForward(repo.Tables());
        TookNothing(alone, trace, Owner, pid);
        return Unrecorded(order), [];
      }
      ghost var w := Now();
      var ok := repo.CreatePayment(order, g.answer.value);
      Record(w, RegisterPayment(pid, order, g.answer.value), pid);
      return Bought(order), [RegisterPayment(pid, order, g.answer.value)];
    }

    /** The database and gateway part of Buy, for an order with everything decided. */
    method Place(ghost pid: nat, n: NewOrder, g: Gateway) returns (r: Purchase, ghost mine: seq<Step>)
      requires Valid() && pid !in procs
      modifies this, repo
      ensures Valid() && Forward(old(repo.Tables()), repo.Tables())
      ensures Took(alone, old(trace), trace, Owner, pid, mine) && StartsWith(old(trace), trace, mine)
      ensures PlaceTrail(mine, pid, n, |old(repo.orders)|, g, r)
      ensures PlaceOutcome(CreateOrder(old(repo.Tables()), n), r)
      ensures r.GatewayError? ==>
                && r.order < |repo.orders|
                && (repo.orders[r.order].status == Paid || repo.orders[r.order].status == Failed)
    {
      hide Inv, Legal, Run, Forward, Took, CreateOrder;
      ghost var t0, w := trace, Now();
      var placed := repo.CreateOrder(n);
      if !placed.PlacedOrder? {
        TookNothing(alone, t0, Owner, pid);
        SameForward(w.books);
        return NotPlaced(placed), [];
      }
      OneMoreOrder(w.books, n);
      Record(w, PlaceOrder(pid, n), pid);
      ghost var t1, b1 := trace, repo.Tables();
      var order := placed.order;
      Interfere(pid);
      ghost var t2, b2 := trace, repo.Tables();
      ForwardTransitive(w.books, b1, b2);
      OrderForward(b1, b2, order);
      ghost var rest: seq<Step>;
      r, rest := RequestPayment(pid, order, g);
      ForwardTransitive(w.books, b2, repo.Tables());
      mine := [PlaceOrder(pid, n)] + rest;
      assert mine[1..] == rest;
      TookThen(alone, t0, t1, t2, Owner, pid, [PlaceOrder(pid, n)], [], [PlaceOrder(pid, n)]);
      TookGrows(alone, t1, t2, Owner, pid, []);
      TookGrows(alone, t2, trace, Owner, pid, rest);
      TookThen(alone, t0, t2, trace, Owner, pid, [PlaceOrder(pid, n)], rest, mine);
    }

    /**
     * Buy: known tells whether the protocol and the gateway exist. What the purchase comes to is decided by the
     * tables at four moments: when the plan is looked up, the code resolved, the waiting orders counted, and the
     * order created. An order that the gateway refuses is failed, or paid if somebody settled it first.
     */
    method Buy(ghost pid: nat, q: Request, known: bool, fold: string -> string, g: Gateway)
      returns (r: Purchase, ghost mine: seq<Step>)
      requires Valid() && pid !in procs
      modifies this, repo
      ensures Valid() && Forward(old(repo.Tables()), repo.Tables())
      ensures Took(alone, old(trace), trace, Owner, pid, mine)
      ensures exists m: Moments :: |old(trace)| <= m.plan && BoughtAt(start, trace, m, q, known, fold, g, r, mine, pid)
      ensures mine != [] ==>
                && mine[0].PlaceOrder? && q.plan < |old(repo.catalogue.plans)|
                && var n, plan := mine[0].n, old(repo.catalogue.plans)[q.plan];
                   && n.user == q.user && n.plan == q.plan && n.country == q.country && n.protocol == q.protocol
                   && n.renew == q.renew && n.placedAt == q.now && plan.active && n.currency == plan.currency
                   && (n.discount <= plan.price ==> n.amount + n.discount == plan.price)
                   && (n.discount > plan.price ==> n.amount == 0)
                   && (TrimSpace(q.code) == "" ==> n.discount == 0 && n.promo.None?)
      ensures r.GatewayError? ==>
                && r.order < |repo.orders|
                && (repo.orders[r.order].status == Paid || repo.orders[r.order].status == Failed)
    {
      hide Inv, Legal, Run, Forward, Took, IsWorth, PlaceTrail, CreateOrder, PendingOrders, BoughtAt, BuyOutcome;
      hide Charge, PlaceOutcome, TrimSpace;
      ghost var t0, b0 := trace, repo.Tables();
      mine := [];
      SameForward(b0);
      TookNothing(alone, t0, Owner, pid);
      if !known {
        r := BadRequest;
        NotKnown(b0, q, fold, g, pid);
        BoughtWhen(start, t0, t0, t0, t0, t0, q, known, fold, g, r, mine, pid);
        return;
      }
      if q.plan >= |repo.catalogue.plans| || !repo.catalogue.plans[q.plan].active {
        r := PlanNotFound;
        NoPlan(b0, q, fold, g, pid);
        BoughtWhen(start, t0, t0, t0, t0, t0, q, known, fold, g, r, mine, pid);
        return;
      }
      var plan := repo.catalogue.plans[q.plan];
      Interfere(pid);
      ghost var t1, b1 := trace, repo.Tables();
      TookGrows(alone, t0, t1, Owner, pid, []);
      var worth := ResolvePromo(repo.promos, fold, q.code, plan.price, q.now);
      if worth.InvalidCode? {
        r := BadCode;
        CodeRefused(b0, b1, q, fold, g, pid);
        BoughtWhen(start, t0, t1, t1, t1, t1, q, known, fold, g, r, mine, pid);
        return;
      }
      Interfere(pid);
      ghost var t2, b2 := trace, repo.Tables();
      TookGrows(alone, t1, t2, Owner, pid, []);
      TookThen(alone, t0, t1, t2, Owner, pid, [], [], []);
      ForwardTransitive(b0, b1, b2);
      var n := NewOrder(q.user, q.plan, q.country, q.protocol, Charge(plan.price, worth.discount), worth.discount,
                        plan.currency, worth.promo, q.renew, q.now);
      OrderAgrees(q, plan, b1.promos, fold, worth, n);
      var pending := repo.CountRecentPending(q.user, q.now - PENDING_WINDOW);
      if pending >= MAX_PENDING {
        r := TooManyPending;
        Decided(b0, b1, b2, b2, q, fold, g, worth, n, r, mine, pid);
        BoughtWhen(start, t0, t1, t2, t2, t2, q, known, fold, g, r, mine, pid);
        return;
      }
      Interfere(pid);
      ghost var t3, b3 := trace, repo.Tables();
      TookGrows(alone, t2, t3, Owner, pid, []);
      TookThen(alone, t0, t2, t3, Owner, pid, [], [], []);
      ForwardTransitive(b0, b2, b3);
      r, mine := Place(pid, n, g);
      TookThen(alone, t0, t3, trace, Owner, pid, [], mine, mine);
      ForwardTransitive(b0, b3, repo.Tables());
      OrderPlaced(mine, pid, n, |b3.orders|, g, r);
      Decided(b0, b1, b2, b3, q, fold, g, worth, n, r, mine, pid);
      BoughtWhen(start, t0, t1, t2, t3, trace, q, known, fold, g, r, mine, pid);
    }
  }

  /** A request of a user; code is what was typed in as promo code. */
  datatype Request = Request(
    user: nat, plan: nat, country: nat, protocol: Protocol, code: string, renew: Option<nat>, now: int)

  /** The positions of the trace at which a purchase looks at the tables. */
  datatype Moments = Moments(plan: nat, code: nat, count: nat, create: nat)

  /** The order says what was asked for. */
  predicate Carries(q: Request, n: NewOrder) {
    && n.user == q.user && n.plan == q.plan && n.country == q.country && n.protocol == q.protocol
    && n.renew == q.renew && n.placedAt == q.now
  }

  /** The order is in the currency of the plan, for its price less the discount, but never less than nothing. */
  predicate Priced(plan: Plan, n: NewOrder) {
    && n.currency == plan.currency
    && if n.discount <= plan.price then n.amount + n.discount == plan.price else n.amount == 0
  }

  /** The steps of a purchase once its order exists, by what the gateway answers. */
  ghost predicate PaymentTrail(rest: seq<Step>, pid: nat, order: nat, g: Gateway, r: Purchase) {
    if g.answer.None? then r == GatewayError(order) && rest == [Fail(pid, order)]
    else if !g.recorded then r == Unrecorded(order) && rest == []
    else r == Bought(order) && rest == [RegisterPayment(pid, order, g.answer.value)]
  }

  /** The steps of a purchase that got as far as creating the order. */
  ghost predicate PlaceTrail(mine: seq<Step>, pid: nat, n: NewOrder, order: nat, g: Gateway, r: Purchase) {
    if r.NotPlaced? then mine == []
    else mine != [] && mine[0] == PlaceOrder(pid, n) && PaymentTrail(mine[1..], pid, order, g, r)
  }

  /** If there are own steps, the first of them comes at once. */
  ghost predicate StartsWith(before: seq<Step>, after: seq<Step>, mine: seq<Step>) {
    before <= after && (mine != [] ==> |before| < |after| && after[|before|] == mine[0])
  }

  /** A purchase is refused for exactly the reason for which creating the order fails. */
  predicate PlaceOutcome(created: OrderResult, r: Purchase) {
    match created
    case Ordered(_) => r.Bought? || r.GatewayError? || r.Unrecorded?
    case PromoInvalid => r == NotPlaced(ErrPromoInvalid)
    case PromoUsed => r == NotPlaced(ErrPromoUsed)
    case Rejected => r == NotPlaced(ErrRejected)
  }

  /**
   * What a purchase comes to, for the tables at its four moments: the checks in their order, the amount, and
   * the order that is created.
   */
  ghost predicate BuyOutcome(atPlan: Books, atCode: Books, atCount: Books, atCreate: Books, q: Request, known: bool,
                             fold: string -> string, g: Gateway, r: Purchase, mine: seq<Step>, pid: nat)
  {
    if !known then r == BadRequest && mine == []
    else if q.plan >= |atPlan.catalogue.plans| || !atPlan.catalogue.plans[q.plan].active then
      r == PlanNotFound && mine == []
    else
      exists worth: Resolved ::
        && IsWorth(atCode.promos, fold, q.code, atPlan.catalogue.plans[q.plan].price, q.now, worth)
        && if worth.InvalidCode? then r == BadCode && mine == []
           else
             exists n: NewOrder ::
               && Carries(q, n) && Priced(atPlan.catalogue.plans[q.plan], n)
               && n.discount == worth.discount && n.promo == worth.promo
               && Ordering(atCount, atCreate, q, n, g, r, mine, pid)
  }

  /** The part of it after the price is known. */
  ghost predicate Ordering(atCount: Books, atCreate: Books, q: Request, n: NewOrder, g: Gateway, r: Purchase,
                           mine: seq<Step>, pid: nat)
  {
    if |PendingOrders(atCount.orders, q.user, q.now - 600)| >= 5 then
      r == TooManyPending && mine == []
    else
      PlaceOutcome(CreateOrder(atCreate, n), r) && PlaceTrail(mine, pid, n, |atCreate.orders|, g, r)
  }

  /** The moments are positions of the trace, in order; the order is created by the step at the last of them. */
  ghost predicate BoughtAt(start: World, trace: seq<Step>, m: Moments, q: Request, known: bool,
                           fold: string -> string, g: Gateway, r: Purchase, mine: seq<Step>, pid: nat)
  {
    && m.plan <= m.code <= m.count <= m.create <= |trace|
    && Legal(start, trace[..m.plan]) && Legal(start, trace[..m.code])
    && Legal(start, trace[..m.count]) && Legal(start, trace[..m.create])
    && (mine != [] ==> m.create < |trace| && trace[m.create] == mine[0])
    && BuyOutcome(Run(start, trace[..m.plan]).books, Run(start, trace[..m.code]).books,
                  Run(start, trace[..m.count]).books, Run(start, trace[..m.create]).books,
                  q, known, fold, g, r, mine, pid)
  }

  lemma BoughtWhen(start: World, t0: seq<Step>, t1: seq<Step>, t2: seq<Step>, t3: seq<Step>, t: seq<Step>, q: Request,
                   known: bool, fold: string -> string, g: Gateway, r: Purchase, mine: seq<Step>, pid: nat)
    requires t0 <= t1 <= t2 <= t3 <= t && StartsWith(t3, t, mine)
    requires Legal(start, t0) && Legal(start, t1) && Legal(start, t2) && Legal(start, t3)
    requires BuyOutcome(Run(start, t0).books, Run(start, t1).books, Run(start, t2).books, Run(start, t3).books,
                        q, known, fold, g, r, mine, pid)
    ensures BoughtAt(start, t, Moments(|t0|, |t1|, |t2|, |t3|), q, known, fold, g, r, mine, pid)
  {
    hide Legal, Run, BuyOutcome;
    Prefixes(t2, t3, t);
    Prefixes(t1, t2, t);
    Prefixes(t0, t1, t);
  }

  lemma Prefixes(a: seq<Step>, b: seq<Step>, c: seq<Step>)
    requires a <= b <= c
    ensures a <= c && c[..|a|] == a && c[..|b|] == b && |a| <= |b|
  {
  }

  lemma NotKnown(b: Books, q: Request, fold: string -> string, g: Gateway, pid: nat)
    ensures BuyOutcome(b, b, b, b, q, false, fold, g, BadRequest, [], pid)
  {
  }

  lemma NoPlan(b: Books, q: Request, fold: string -> string, g: Gateway, pid: nat)
    requires q.plan >= |b.catalogue.plans| || !b.catalogue.plans[q.plan].active
    ensures BuyOutcome(b, b, b, b, q, true, fold, g, PlanNotFound, [], pid)
  {
  }

  lemma CodeRefused(b0: Books, b1: Books, q: Request, fold: string -> string, g: Gateway, pid: nat)
    requires q.plan < |b0.catalogue.plans| && b0.catalogue.plans[q.plan].active
    requires IsWorth(b1.promos, fold, q.code, b0.catalogue.plans[q.plan].price, q.now, InvalidCode)
    ensures BuyOutcome(b0, b1, b1, b1, q, true, fold, g, BadCode, [], pid)
  {
    hide IsWorth;
  }

  lemma Decided(b0: Books, b1: Books, b2: Books, b3: Books, q: Request, fold: string -> string, g: Gateway,
                worth: Resolved, n: NewOrder, r: Purchase, mine: seq<Step>, pid: nat)
    requires q.plan < |b0.catalogue.plans| && b0.catalogue.plans[q.plan].active && worth.Resolved?
    requires IsWorth(b1.promos, fold, q.code, b0.catalogue.plans[q.plan].price, q.now, worth)
    requires Carries(q, n) && Priced(b0.catalogue.plans[q.plan], n)
    requires n.discount == worth.discount && n.promo == worth.promo
    requires Ordering(b2, b3, q, n, g, r, mine, pid)
    ensures BuyOutcome(b0, b1, b2, b3, q, true, fold, g, r, mine, pid)
  {
    hide IsWorth, Ordering, Carries, Priced;
  }

  lemma OrderAgrees(q: Request, plan: Plan, promos: seq<Promo>, fold: string -> string, worth: Resolved, n: NewOrder)
    requires IsWorth(promos, fold, q.code, plan.price, q.now, worth) && worth.Resolved?
    requires n == NewOrder(q.user, q.plan, q.country, q.protocol, Charge(plan.price, worth.discount), worth.discount,
                           plan.currency, worth.promo, q.renew, q.now)
    ensures Carries(q, n) && Priced(plan, n)
    ensures TrimSpace(q.code) == "" ==> n.discount == 0 && n.promo.None?
  {
  }

  lemma OrderPlaced(mine: seq<Step>, pid: nat, n: NewOrder, order: nat, g: Gateway, r: Purchase)
    requires PlaceTrail(mine, pid, n, order, g, r)
    ensures mine != [] ==> mine[0] == PlaceOrder(pid, n)
  {
  }

  /** For a code that is no junk and a price that is not negative: what the customer pays in the end. */
  lemma WhatIsPaid(promos: seq<Promo>, fold: string -> string, q: Request, plan: Plan, worth: Resolved, n: NewOrder)
    requires IsWorth(promos, fold, q.code, plan.price, q.now, worth) && worth.Resolved? && plan.price >= 0
    requires Priced(plan, n) && n.discount == worth.discount && n.promo == worth.promo
    ensures TrimSpace(q.code) == "" ==> n.amount == plan.price
    ensures TrimSpace(q.code) != "" ==>
              && n.promo.Some? && n.promo.value < |promos|
              && match promos[n.promo.value].discount
                 case Percent(rate) =>
                   0 <= rate <= 10000 ==>
                     -10000 <= 2 * (10000 * n.amount) - 2 * (plan.price * (10000 - rate)) <= 10000
                 case Fixed(worth) => n.amount == if worth <= plan.price then plan.price - worth else 0
                 case Unknown => n.amount == plan.price
  {
    if TrimSpace(q.code) != "" {
      WorthMeans(promos, fold, q.code, plan.price, q.now, worth);
      if promos[n.promo.value].discount.Percent? {
        var rate := promos[n.promo.value].discount.rate;
        if 0 <= rate <= 10000 {
          PercentSplitsPrice(plan.price, rate);
          assert plan.price * (10000 - rate) == 10000 * plan.price - plan.price * rate;
        }
      }
    }
  }

  lemma OneMoreOrder(b: Books, n: NewOrder)
    requires CreateOrder(b, n).Ordered?
    ensures |CreateOrder(b, n).books.orders| == |b.orders| + 1
  {
  }
}

/** The expiry of one subscription over runs of the billing protocol. */
module BillingExpiry {
  import opened Text
  import opened Subscriptions
  import opened Renewals
  import opened BillingTables
  import opened BillingProtocol

  /** What a step means for one subscription. */
  function EventOf(w: World, s: Step, sub: nat): seq<Event>
    requires Enabled(w, s)
  {
    match s
    case RenewOk(pid, now) =>
      if w.books.orders[w.procs[pid].order].renew == Some(sub) then [Renew(now, w.procs[pid].stage.days)] else []
    case SweepDue(now, _) => [Sweep(now)]
    case MoveSub(moved, server) => if moved == sub then [Moved(server)] else []
    case DeleteSub(deleted) => if deleted == sub then [Removed] else []
    case _ => []
  }

  ghost function EventsOf(w: World, steps: seq<Step>, sub: nat): seq<Event>
    requires Legal(w, steps)
    decreases |steps|
  {
    if steps == [] then [] else EventOf(w, steps[0], sub) + EventsOf(Do(w, steps[0]), steps[1..], sub)
  }

  /** A renewal lasts as long as the plan of its order says. */
  lemma RenewalDays(w: World, s: Step)
    requires Inv(w) && Enabled(w, s) && s.RenewOk?
    ensures var f := w.procs[s.pid]; HasDays(w.books, w.books.orders[f.order].plan, f.stage.days)
  {
    assert FulfilmentOk(w, w.procs[s.pid]);
  }

  /** The sweeper has one grace period. */
  predicate GraceIs(steps: seq<Step>, grace: int) {
    forall i :: 0 <= i < |steps| && steps[i].SweepDue? ==> steps[i].grace == grace
  }

  lemma ApplyOne(s: Sub, e: Event, grace: int)
    ensures ApplyAll(s, [e], grace) == Apply(s, e, grace) && ApplyAll(s, [], grace) == s
  {
    assert [e][..0] == [];
  }

  lemma StepRow(w: World, s: Step, sub: nat, grace: int)
    requires Enabled(w, s) && sub < |w.books.subs| && (s.SweepDue? ==> s.grace == grace)
    ensures sub < |Do(w, s).books.subs|
    ensures Do(w, s).books.subs[sub] == ApplyAll(w.books.subs[sub], EventOf(w, s, sub), grace)
  {
    var row, v := w.books.subs[sub], Do(w, s);
    hide SetPayments, CreateOrder, FinalizePaid, MarkFailed, ApplyAll;
    var e := EventOf(w, s, sub);
    ApplyOne(row, if e == [] then Removed else e[0], grace);
    assert e == [] || e == [e[0]];
    if s.PlaceOrder? || s.Finalize? || s.Fail? {
      SubsUntouched(w, s);
    }
  }

  lemma SubsUntouched(w: World, s: Step)
    requires Enabled(w, s) && (s.PlaceOrder? || s.Finalize? || s.Fail?)
    ensures Do(w, s).books.subs == w.books.subs
  {
  }

  /** A subscription goes through a run as its events say. */
  lemma {:induction false} RowOverRun(w: World, steps: seq<Step>, sub: nat, grace: int)
    requires Legal(w, steps) && GraceIs(steps, grace) && sub < |w.books.subs|
    ensures sub < |Run(w, steps).books.subs|
    ensures Run(w, steps).books.subs[sub] == ApplyAll(w.books.subs[sub], EventsOf(w, steps, sub), grace)
    decreases |steps|
  {
    hide Do, Enabled, EventOf, ApplyAll;
    if steps == [] {
      ApplyOne(w.books.subs[sub], Removed, grace);
    } else {
      var v := Do(w, steps[0]);
      StepRow(w, steps[0], sub, grace);
      RowOverRun(v, steps[1..], sub, grace);
      ApplyConcat(w.books.subs[sub], EventOf(w, steps[0], sub), EventsOf(v, steps[1..], sub), grace);
    }
  }

  /** The renewals of an active subscription that take effect in a run. */
  ghost function RenewalsIn(w: World, steps: seq<Step>, sub: nat, grace: int): seq<Renewal>
    requires Legal(w, steps) && sub < |w.books.subs|
  {
    RenewalsOf(w.books.subs[sub], EventsOf(w, steps, sub), grace)
  }

  /**
   * Whatever else happens in a run, the expiry of a subscription is the maximum of the start plus all days
   * bought and, for each renewal, its time plus the days bought from then on.
   */
  lemma ExpiryOverRun(w: World, steps: seq<Step>, sub: nat, grace: int)
    requires Legal(w, steps) && GraceIs(steps, grace) && sub < |w.books.subs| && w.books.subs[sub].status == Active
    ensures sub < |Run(w, steps).books.subs|
    ensures var start, rs, end := w.books.subs[sub].expiresAt, RenewalsIn(w, steps, sub, grace),
                                  Run(w, steps).books.subs[sub].expiresAt;
            && end >= start + TotalDays(rs) * DAY
            && (forall i :: 0 <= i < |rs| ==> end >= Restarted(rs, i))
            && (end == start + TotalDays(rs) * DAY || exists i :: 0 <= i < |rs| && end == Restarted(rs, i))
  {
    hide Legal, Run, EventsOf, ApplyAll, Expiry, Restarted, TotalDays;
    RowOverRun(w, steps, sub, grace);
    ExpiryAfterEvents(w.books.subs[sub], EventsOf(w, steps, sub), grace);
    RenewalClosedForm(w.books.subs[sub].expiresAt, RenewalsIn(w, steps, sub, grace));
  }

  /** In every reachable world an expired subscription was swept after its expiry plus the grace period. */
  lemma ExpiredWasDue(w: World, steps: seq<Step>, sub: nat, grace: int)
    requires Legal(w, steps) && GraceIs(steps, grace) && sub < |w.books.subs| && w.books.subs[sub].status == Active
    requires sub < |Run(w, steps).books.subs| && Run(w, steps).books.subs[sub].status == Expired
    ensures SweptAfter(EventsOf(w, steps, sub), Run(w, steps).books.subs[sub].expiresAt + grace)
  {
    hide Legal, Run, EventsOf, ApplyAll, Expiry;
    RowOverRun(w, steps, sub, grace);
    ExpiryAfterEvents(w.books.subs[sub], EventsOf(w, steps, sub), grace);
    NeverExpiredEarly(w.books.subs[sub], EventsOf(w, steps, sub), grace);
  }

  /**
   * In every reachable world, when the clock never ran back, a sweep leaves a subscription that is not deleted
   * active if and only if its grace period is not over.
   */
  lemma SweepOverRun(w: World, steps: seq<Step>, sub: nat, now: int, grace: int)
    requires Legal(w, steps) && GraceIs(steps, grace) && sub < |w.books.subs| && w.books.subs[sub].status == Active
    requires sub < |Run(w, steps).books.subs| && Run(w, steps).books.subs[sub].status != Deleted
    requires ClockRuns(EventsOf(w, steps, sub) + [Sweep(now)])
    ensures var v := Run(w, steps);
            sub < |Do(v, SweepDue(now, grace)).books.subs|
            && (Do(v, SweepDue(now, grace)).books.subs[sub].status == Active
                <==> now <= v.books.subs[sub].expiresAt + grace)
  {
    var row, events, v := w.books.subs[sub], EventsOf(w, steps, sub), Run(w, steps);
    StepRow(v, SweepDue(now, grace), sub, grace);
    hide Legal, Run, EventsOf, ApplyAll, Expiry;
    RowOverRun(w, steps, sub, grace);
    ExpiryAfterEvents(row, events, grace);
    SweepIsExact(row, events, now, grace);
    ApplyConcat(row, events, [Sweep(now)], grace);
  }
}

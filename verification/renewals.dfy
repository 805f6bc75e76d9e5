/** Renewing a subscription and sweeping overdue ones. */
module Renewals {
  import opened Text
  import opened Subscriptions

  const DAY := 86400

  function Later(a: int, b: int): int {
    if a >= b then a else b
  }

  /** GREATEST(expires_at, now()) + make_interval(days), unless the subscription is deleted. */
  function Extend(s: Sub, now: int, days: int): Option<Sub> {
    if s.status == Deleted then None
    else Some(s.(expiresAt := Later(s.expiresAt, now) + days * DAY, status := Active))
  }

  /** The WHERE clause of the bulk update: an active subscription whose grace period is over. */
  predicate Due(s: Sub, now: int, grace: int) {
    s.status == Active && s.expiresAt < now - grace
  }

  function Swept(s: Sub, now: int, grace: int): Sub {
    if Due(s, now, grace) then s.(status := Expired) else s
  }

  datatype Renewal = Renewal(at: int, days: int)

  function TotalDays(rs: seq<Renewal>): int {
    if rs == [] then 0 else TotalDays(rs[..|rs| - 1]) + rs[|rs| - 1].days
  }

  /** The expiry after some renewals, one after the other. */
  function Expiry(start: int, rs: seq<Renewal>): int {
    if rs == [] then start
    else
      var r := rs[|rs| - 1];
      Later(Expiry(start, rs[..|rs| - 1]), r.at) + r.days * DAY
  }

  /** The expiry if renewal i starts a new period and none of the later ones does. */
  function Restarted(rs: seq<Renewal>, i: nat): int
    requires i < |rs|
  {
    rs[i].at + TotalDays(rs[i..]) * DAY
  }

  lemma TotalDaysSplit(rs: seq<Renewal>, i: nat)
    requires i < |rs|
    ensures TotalDays(rs[i..]) == TotalDays(rs[i..|rs| - 1]) + rs[|rs| - 1].days
  {
    assert rs[i..][..|rs| - i - 1] == rs[i..|rs| - 1];
  }

  /**
   * The expiry is the greatest of the start plus all days bought and, for each renewal, its time plus the
   * days bought from then on. So no paid day is ever lost.
   */
  lemma {:induction false} RenewalClosedForm(start: int, rs: seq<Renewal>)
    ensures Expiry(start, rs) >= start + TotalDays(rs) * DAY
    ensures forall i :: 0 <= i < |rs| ==> Expiry(start, rs) >= Restarted(rs, i)
    ensures Expiry(start, rs) == start + TotalDays(rs) * DAY
            || exists i :: 0 <= i < |rs| && Expiry(start, rs) == Restarted(rs, i)
  {
    if rs != [] {
      var last := |rs| - 1;
      var init := rs[..last];
      RenewalClosedForm(start, init);
      forall i | 0 <= i < |rs|
        ensures Restarted(rs, i) == (if i < last then Restarted(init, i) else rs[last].at) + rs[last].days * DAY
      {
        TotalDaysSplit(rs, i);
        assert rs[i..last] == init[i..];
      }
      if Expiry(start, init) >= rs[last].at {
        if Expiry(start, init) != start + TotalDays(init) * DAY {
          var i :| 0 <= i < |init| && Expiry(start, init) == Restarted(init, i);
          assert Expiry(start, rs) == Restarted(rs, i);
        }
      } else {
        assert Expiry(start, rs) == Restarted(rs, last);
      }
    }
  }

  // Everything that happens to one subscription, in any order

  /** Besides renewals and sweeps, a migration makes a subscription active, and it may be deleted. */
  datatype Event = Renew(at: int, days: int) | Sweep(at: int) | Moved(server: nat) | Removed

  function Apply(s: Sub, e: Event, grace: int): Sub {
    match e
    case Renew(at, days) => if Extend(s, at, days).Some? then Extend(s, at, days).value else s
    case Sweep(at) => Swept(s, at, grace)
    case Moved(server) => s.(server := server, status := Active)
    case Removed => s.(status := Deleted)
  }

  function ApplyAll(s: Sub, events: seq<Event>, grace: int): Sub {
    if events == [] then s else Apply(ApplyAll(s, events[..|events| - 1], grace), events[|events| - 1], grace)
  }

  lemma {:induction false} ApplyConcat(s: Sub, a: seq<Event>, b: seq<Event>, grace: int)
    ensures ApplyAll(s, a + b, grace) == ApplyAll(ApplyAll(s, a, grace), b, grace)
  {
    if b == [] {
      assert a + b == a;
    } else {
      ApplyConcat(s, a, b[..|b| - 1], grace);
      assert (a + b)[..|a + b| - 1] == a + b[..|b| - 1];
      hide Apply;
    }
  }

  /** The renewals that took effect: those of a subscription that was not deleted at the time. */
  function RenewalsOf(s: Sub, events: seq<Event>, grace: int): seq<Renewal> {
    if events == [] then []
    else
      var init, e := events[..|events| - 1], events[|events| - 1];
      RenewalsOf(s, init, grace)
      + if e.Renew? && ApplyAll(s, init, grace).status != Deleted then [Renewal(e.at, e.days)] else []
  }

  predicate Timed(e: Event) {
    e.Renew? || e.Sweep?
  }

  predicate ClockRuns(events: seq<Event>) {
    forall i, j :: 0 <= i < j < |events| && Timed(events[i]) && Timed(events[j]) ==> events[i].at <= events[j].at
  }

  /** A subscription that starts active is only ever active, expired or deleted. */
  predicate Usual(s: Sub) {
    s.status == Active || s.status == Expired || s.status == Deleted
  }

  /** Only renewals that take effect change the expiry. */
  lemma {:induction false} ExpiryAfterEvents(s: Sub, events: seq<Event>, grace: int)
    requires s.status == Active
    ensures Usual(ApplyAll(s, events, grace))
    ensures ApplyAll(s, events, grace).expiresAt == Expiry(s.expiresAt, RenewalsOf(s, events, grace))
  {
    if events != [] {
      var init, e := events[..|events| - 1], events[|events| - 1];
      ExpiryAfterEvents(s, init, grace);
      var rs := RenewalsOf(s, events, grace);
      if e.Renew? && ApplyAll(s, init, grace).status != Deleted {
        assert rs[..|rs| - 1] == RenewalsOf(s, init, grace);
      } else {
        assert rs == RenewalsOf(s, init, grace);
      }
      assert ApplyAll(s, events, grace) == Apply(ApplyAll(s, init, grace), e, grace);
      hide ApplyAll, RenewalsOf;
    }
  }

  /** Some sweep came after the expiry plus the grace period. */
  ghost predicate SweptAfter(events: seq<Event>, deadline: int) {
    exists i :: 0 <= i < |events| && events[i].Sweep? && events[i].at > deadline
  }

  lemma SweptAfterStays(events: seq<Event>, e: Event, deadline: int)
    requires SweptAfter(events, deadline)
    ensures SweptAfter(events + [e], deadline)
  {
    var i :| 0 <= i < |events| && events[i].Sweep? && events[i].at > deadline;
    assert (events + [e])[i] == events[i];
  }

  /** A subscription is found expired only when a sweep came after its expiry plus the grace period. */
  lemma {:induction false} NeverExpiredEarly(s: Sub, events: seq<Event>, grace: int)
    requires s.status == Active && ApplyAll(s, events, grace).status == Expired
    ensures SweptAfter(events, Expiry(s.expiresAt, RenewalsOf(s, events, grace)) + grace)
  {
    var init, e := events[..|events| - 1], events[|events| - 1];
    var before, after := ApplyAll(s, init, grace), ApplyAll(s, events, grace);
    ExpiryAfterEvents(s, init, grace);
    ExpiryAfterEvents(s, events, grace);
    assert after == Apply(before, e, grace);
    if before.status == Expired {
      NeverExpiredEarly(s, init, grace);
    }
    hide ApplyAll, Expiry, RenewalsOf;
    assert events == init + [e];
    assert after.expiresAt == before.expiresAt;
    if before.status == Expired {
      SweptAfterStays(init, e, after.expiresAt + grace);
    } else {
      assert events[|events| - 1].Sweep?;
    }
  }

  /**
   * With a clock that never runs back, a subscription that is not deleted is active right after a sweep if and
   * only if its grace period is not over.
   */
  lemma SweepIsExact(s: Sub, events: seq<Event>, at: int, grace: int)
    requires s.status == Active && ClockRuns(events + [Sweep(at)])
    requires ApplyAll(s, events, grace).status != Deleted
    ensures ApplyAll(s, events + [Sweep(at)], grace).status == Active
            <==> at <= Expiry(s.expiresAt, RenewalsOf(s, events, grace)) + grace
  {
    var all := events + [Sweep(at)];
    assert all[..|all| - 1] == events;
    var before, deadline := ApplyAll(s, events, grace), Expiry(s.expiresAt, RenewalsOf(s, events, grace)) + grace;
    ExpiryAfterEvents(s, events, grace);
    assert ApplyAll(s, all, grace) == Apply(before, Sweep(at), grace);
    if before.status == Expired {
      NeverExpiredEarly(s, events, grace);
      hide ApplyAll, Expiry, RenewalsOf;
      var i :| 0 <= i < |events| && events[i].Sweep? && events[i].at > deadline;
      assert all[i] == events[i] && Timed(all[i]) && Timed(all[|events|]);
      assert all[i].at <= all[|events|].at;
    }
  }

  lemma {:induction false} TotalDaysNonNegative(rs: seq<Renewal>)
    requires forall r :: r in rs ==> r.days >= 0
    ensures TotalDays(rs) >= 0
  {
    if rs != [] {
      TotalDaysNonNegative(rs[..|rs| - 1]);
    }
  }

  /** With plans of non-negative length, renewing never brings the expiry forward. */
  lemma ExpiryNeverDecreases(start: int, rs: seq<Renewal>)
    requires forall r :: r in rs ==> r.days >= 0
    ensures Expiry(start, rs) >= start
  {
    TotalDaysNonNegative(rs);
    RenewalClosedForm(start, rs);
  }
}

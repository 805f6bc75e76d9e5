/** What one operation leaves in the trace, and what it means for the worlds along the run. */
module VpnTrails {
  import opened Text
  import Cidr
  import opened Traces
  import opened Subscriptions
  import opened VpnTables
  import opened VpnRepository
  import opened VpnProtocol

  /**
   * What the other systems answer to one operation: whether the queries work whose errors a migration ignores,
   * for the old server and the old key; whether the node takes the client; whether the keys could be encrypted
   * and the config stored; and whether the node reports the removal.
   */
  datatype Answers = Answers(lookups: bool, added: bool, stored: bool, removed: bool)

  /** The node call and the transaction. The transaction is tried whenever the node and the store did their part. */
  ghost predicate IssueTrail(rest: seq<Step>, pid: nat, a: Answers) {
    if !a.added then rest == [AddFailed(pid)]
    else if !a.stored then rest == [AddOk(pid), Stop(pid)]
    else rest == [AddOk(pid), Commit(pid)] || rest == [AddOk(pid), Refused(pid)]
  }

  function Removal(pid: nat, a: Answers): Step {
    if a.removed then RemoveOk(pid) else RemoveFailed(pid)
  }

  /** The steps of a begun create on the given server. */
  ghost predicate CreateTrail(mine: seq<Step>, pid: nat, p: NewSub, server: nat, a: Answers) {
    mine != [] && mine[0] == BeginCreate(pid, p, server) && IssueTrail(mine[1..], pid, a)
  }

  /** The preferred server among the candidates of w has nothing to give in v, or there is no candidate in w. */
  ghost predicate NoServer(w: World, v: World, country: nat, protocol: Protocol, reserveFirst: bool,
                           exclude: Option<nat>)
  {
    || (forall s :: 0 <= s < |w.db.servers| ==> !Candidate(w.db.servers, s, country, protocol, exclude))
    || exists s: nat :: IsBest(w.db.servers, s, country, protocol, reserveFirst, exclude)
                        && CannotGive(v.db, s, protocol)
  }

  /** The steps of a move after its beginning; once it is committed, an old key is withdrawn from the node. */
  ghost predicate MoveRest(rest: seq<Step>, pid: nat, found: bool, a: Answers) {
    if found && Commit(pid) in rest then
      a.added && a.stored && rest == [AddOk(pid), Commit(pid), Removal(pid, a)]
    else
      IssueTrail(rest, pid, a)
  }

  ghost predicate MoveTrail(mine: seq<Step>, pid: nat, sub: nat, from: nat, a: Answers) {
    && mine != [] && mine[0].BeginMove?
    && mine[0] == BeginMove(pid, sub, from, mine[0].server, mine[0].oldKey)
    && MoveRest(mine[1..], pid, mine[0].oldKey.Some?, a)
  }

  /** Step k of the run moves the subscription: its transaction succeeds and puts it on another server. */
  ghost predicate MovedAt(start: World, trace: seq<Step>, k: nat, pid: nat, sub: nat, from: nat) {
    && k < |trace| && trace[k] == Commit(pid) && Legal(start, trace[..k]) && Legal(start, trace[..k + 1])
    && Relocated(Run(start, trace[..k]), Run(start, trace[..k + 1]), pid, sub, from)
  }

  ghost predicate MovedWithin(start: World, trace: seq<Step>, i: nat, j: nat, pid: nat, sub: nat, from: nat) {
    exists k: nat :: i <= k < j && MovedAt(start, trace, k, pid, sub, from)
  }

  /** What the lookup of the old key finds at position k: the active key, or none because of a deletion. */
  ghost predicate KeyAt(start: World, trace: seq<Step>, k: nat, sub: nat, oldKey: Option<nat>) {
    && k <= |trace| && Legal(start, trace[..k])
    && var w := Run(start, trace[..k]);
       match oldKey
       case None => IsDeleted(w, sub)
       case Some(i) => ActiveKeyOf(w.db, i, sub)
  }

  ghost predicate KeyWithin(start: World, trace: seq<Step>, i: nat, j: nat, sub: nat, oldKey: Option<nat>) {
    exists k: nat :: i <= k <= j && KeyAt(start, trace, k, sub, oldKey)
  }

  /**
   * Between positions i and j, pid attempts to move the subscription. Either no reserve server could be used,
   * and it takes no step; or it tries the preferred one, and done tells whether the move was committed. The
   * old key is the one to withdraw when both lookups work, and none otherwise.
   */
  ghost predicate Attempt(
    alone: bool, start: World, trace: seq<Step>, i: nat, j: nat, pid: nat, mine: seq<Step>,
    sub: nat, from: nat, a: Answers, done: bool)
  {
    && i <= j <= |trace| && Legal(start, trace[..i]) && Legal(start, trace[..j])
    && Took(alone, trace[..i], trace[..j], Owner, pid, mine)
    && var w := Run(start, trace[..i]);
       && sub < |w.db.subs|
       && (mine == [] ==>
             && !done
             && NoServer(w, Run(start, trace[..j]), w.db.subs[sub].country, w.db.subs[sub].protocol, true, Some(from)))
       && (mine != [] ==>
             && MoveTrail(mine, pid, sub, from, a)
             && IsBest(w.db.servers, mine[0].server, w.db.subs[sub].country, w.db.subs[sub].protocol, true, Some(from))
             && (done <==> Commit(pid) in mine)
             && (done ==> MovedWithin(start, trace, i, j, pid, sub, from))
             && (if a.lookups then KeyWithin(start, trace, i, j, sub, mine[0].oldKey) else mine[0].oldKey.None?))
  }

  /** A committed move is one at its position. */
  lemma CommitMoves(start: World, t: seq<Step>, pid: nat)
    requires Inv(start) && Legal(start, t) && Enabled(Run(start, t), Commit(pid))
    requires Run(start, t).procs[pid].target.Move?
    ensures var target := Run(start, t).procs[pid].target;
            MovedAt(start, t + [Commit(pid)], |t|, pid, target.sub, target.from)
  {
    hide Inv, Legal, Run, Do, Enabled, Relocated;
    RunKeeps(start, t);
    RunAppend(start, t, Commit(pid));
    MoveRelocates(Run(start, t), pid);
    var all := t + [Commit(pid)];
    assert all[..|t|] == t && all[..|t| + 1] == all;
  }

  lemma MovedStays(start: World, t: seq<Step>, t': seq<Step>, i: nat, j: nat, pid: nat, sub: nat, from: nat)
    requires t <= t' && MovedWithin(start, t, i, j, pid, sub, from)
    ensures MovedWithin(start, t', i, j, pid, sub, from)
  {
    var k: nat :| i <= k < j && MovedAt(start, t, k, pid, sub, from);
    assert t'[..k] == t[..k] && t'[..k + 1] == t[..k + 1];
    hide Relocated, Legal, Run;
    assert MovedAt(start, t', k, pid, sub, from);
  }

  lemma KeyStays(start: World, t: seq<Step>, t': seq<Step>, i: nat, j: nat, sub: nat, oldKey: Option<nat>)
    requires t <= t' && KeyWithin(start, t, i, j, sub, oldKey)
    ensures KeyWithin(start, t', i, j, sub, oldKey)
  {
    var k: nat :| i <= k <= j && KeyAt(start, t, k, sub, oldKey);
    assert t'[..k] == t[..k];
    hide Legal, Run;
    assert KeyAt(start, t', k, sub, oldKey);
  }

  /** An attempt stays what it was while the trace grows. */
  lemma AttemptStays(
    alone: bool, start: World, t: seq<Step>, t': seq<Step>, i: nat, j: nat, pid: nat, mine: seq<Step>,
    sub: nat, from: nat, a: Answers, done: bool)
    requires t <= t' && Attempt(alone, start, t, i, j, pid, mine, sub, from, a, done)
    ensures Attempt(alone, start, t', i, j, pid, mine, sub, from, a, done)
  {
    assert t'[..i] == t[..i] && t'[..j] == t[..j];
    hide Legal, Run, NoServer, MoveTrail, IsBest, MovedWithin, KeyWithin, Took;
    if mine != [] && done {
      MovedStays(start, t, t', i, j, pid, sub, from);
    }
    if mine != [] && a.lookups {
      KeyStays(start, t, t', i, j, sub, mine[0].oldKey);
    }
  }

  lemma MovedLater(start: World, t: seq<Step>, t': seq<Step>, i: nat, pid: nat, sub: nat, from: nat)
    requires t <= t' && MovedWithin(start, t, i, |t|, pid, sub, from)
    ensures MovedWithin(start, t', i, |t'|, pid, sub, from)
  {
    var k: nat :| i <= k < |t| && MovedAt(start, t, k, pid, sub, from);
    assert t'[..k] == t[..k] && t'[..k + 1] == t[..k + 1];
    hide Relocated, Legal, Run;
    assert MovedAt(start, t', k, pid, sub, from);
  }

  lemma CommitInTrail(begin: Step, rest: seq<Step>, pid: nat)
    requires !begin.Commit?
    ensures Commit(pid) in [begin] + rest <==> Commit(pid) in rest
  {
  }

  lemma KeyLater(start: World, t: seq<Step>, t': seq<Step>, i: nat, sub: nat, oldKey: Option<nat>)
    requires i <= |t| && t <= t' && KeyAt(start, t, |t|, sub, oldKey)
    ensures KeyWithin(start, t', i, |t'|, sub, oldKey)
  {
    hide Legal, Run;
    assert t[..|t|] == t && t'[..|t|] == t;
    assert KeyAt(start, t', |t|, sub, oldKey);
  }

  lemma BestIsOther(servers: seq<Server>, b: nat, country: nat, protocol: Protocol, reserveFirst: bool, from: nat)
    requires IsBest(servers, b, country, protocol, reserveFirst, Some(from))
    ensures b < |servers| && b != from
  {
  }

  lemma MovedEarlier(start: World, t: seq<Step>, i: nat, j: nat, pid: nat, sub: nat, from: nat)
    requires i <= j && MovedWithin(start, t, j, |t|, pid, sub, from)
    ensures MovedWithin(start, t, i, |t|, pid, sub, from)
  {
    hide MovedAt;
    var k: nat :| j <= k < |t| && MovedAt(start, t, k, pid, sub, from);
  }

  /** The parts of a begun move make an attempt. */
  lemma MoveDone(
    alone: bool, start: World, t0: seq<Step>, t1: seq<Step>, t: seq<Step>, pid: nat, begin: Step,
    rest: seq<Step>, a: Answers, done: bool)
    requires Legal(start, t0) && Legal(start, t) && t0 <= t1 <= t
    requires begin.BeginMove? && begin.pid == pid && begin.sub < |Run(start, t0).db.subs|
    requires MoveRest(rest, pid, begin.oldKey.Some?, a) && (done <==> Commit(pid) in rest)
    requires Took(alone, t0, t, Owner, pid, [begin] + rest)
    requires var db := Run(start, t0).db;
             IsBest(db.servers, begin.server, db.subs[begin.sub].country, db.subs[begin.sub].protocol,
                    true, Some(begin.from))
    requires done ==> MovedWithin(start, t, |t1|, |t|, pid, begin.sub, begin.from)
    requires if a.lookups then KeyWithin(start, t1, |t0|, |t1|, begin.sub, begin.oldKey) else begin.oldKey.None?
    ensures Attempt(alone, start, t, |t0|, |t|, pid, [begin] + rest, begin.sub, begin.from, a, done)
  {
    hide Legal, Run, IsBest, Took, MovedAt, KeyAt;
    var mine := [begin] + rest;
    CommitInTrail(begin, rest, pid);
    assert t[..|t0|] == t0 && t[..|t|] == t && mine[1..] == rest;
    if done {
      MovedEarlier(start, t, |t0|, |t1|, pid, begin.sub, begin.from);
    }
    if a.lookups {
      KeyStays(start, t1, t, |t0|, |t1|, begin.sub, begin.oldKey);
      var k: nat :| |t0| <= k <= |t1| && KeyAt(start, t, k, begin.sub, begin.oldKey);
      assert KeyWithin(start, t, |t0|, |t|, begin.sub, begin.oldKey);
    }
  }

  /** Taking no step because there is no server is an attempt as well. */
  lemma NoMove(alone: bool, start: World, t0: seq<Step>, t: seq<Step>, pid: nat, sub: nat, from: nat, a: Answers)
    requires Legal(start, t0) && Legal(start, t) && Took(alone, t0, t, Owner, pid, [])
    requires sub < |Run(start, t0).db.subs|
    requires var s := Run(start, t0).db.subs[sub];
             NoServer(Run(start, t0), Run(start, t), s.country, s.protocol, true, Some(from))
    ensures Attempt(alone, start, t, |t0|, |t|, pid, [], sub, from, a, false)
  {
    hide Legal, Run, NoServer, Took, MoveTrail, MovedWithin, KeyWithin, IsBest;
    TookGrows(alone, t0, t, Owner, pid, []);
    assert t[..|t0|] == t0 && t[..|t|] == t;
  }

  /** A stretch of the trace and the steps that one operation took in it. */
  datatype Piece = Piece(lo: nat, hi: nat, pid: nat, mine: seq<Step>)

  /** The pieces follow each other without gaps from position lo to position hi. */
  ghost predicate Tiled(pieces: seq<Piece>, lo: nat, hi: nat) {
    && (if pieces == [] then lo == hi else pieces[0].lo == lo && pieces[|pieces| - 1].hi == hi)
    && forall n :: 0 <= n < |pieces| - 1 ==> pieces[n].hi == pieces[n + 1].lo
  }

  /** In every piece one listed subscription is attempted, and exactly the committed ones are reported. */
  ghost predicate Attempts(
    alone: bool, start: World, trace: seq<Step>, pieces: seq<Piece>, listed: seq<nat>, from: nat,
    answers: nat -> Answers, results: seq<nat>)
  {
    && |pieces| == |listed|
    && forall n :: 0 <= n < |listed| ==>
         Attempt(alone, start, trace, pieces[n].lo, pieces[n].hi, pieces[n].pid, pieces[n].mine, listed[n], from,
                 answers(listed[n]), listed[n] in results)
  }

  lemma NoAttempts(alone: bool, start: World, trace: seq<Step>, lo: nat, from: nat, answers: nat -> Answers)
    ensures Tiled([], lo, lo) && Reported([], [])
    ensures Attempts(alone, start, trace, [], [], from, answers, [])
  {
  }

  predicate Ascending(s: seq<nat>) {
    forall a, b :: 0 <= a < b < |s| ==> s[a] < s[b]
  }

  /** results reports only listed subscriptions, in order. */
  ghost predicate Reported(results: seq<nat>, listed: seq<nat>) {
    Ascending(results) && forall r :: r in results ==> r in listed
  }

  lemma OneMoreReported(results: seq<nat>, listed: seq<nat>, i: nat, done: bool)
    requires i < |listed| && Ascending(listed) && Reported(results, listed[..i])
    ensures var results' := if done then results + [listed[i]] else results;
            && Reported(results', listed[..i + 1]) && (listed[i] in results' <==> done)
            && forall n :: 0 <= n < i ==> (listed[n] in results' <==> listed[n] in results)
  {
    assert forall k :: 0 <= k < |results| ==> results[k] in results;
    forall r: nat | r in results ensures r < listed[i] {
      var k :| 0 <= k < i && listed[k] == r;
    }
    assert listed[..i + 1] == listed[..i] + [listed[i]];
  }

  lemma OneMoreAttempt(
    alone: bool, start: World, t: seq<Step>, t': seq<Step>, pieces: seq<Piece>, p: Piece, listed: seq<nat>, i: nat,
    from: nat, answers: nat -> Answers, results: seq<nat>, results': seq<nat>)
    requires i < |listed| && t <= t'
    requires Attempts(alone, start, t, pieces, listed[..i], from, answers, results)
    requires Attempt(alone, start, t', p.lo, p.hi, p.pid, p.mine, listed[i], from, answers(listed[i]),
                     listed[i] in results')
    requires forall n :: 0 <= n < i ==> (listed[n] in results' <==> listed[n] in results)
    ensures Attempts(alone, start, t', pieces + [p], listed[..i + 1], from, answers, results')
  {
    hide Attempt;
    forall n | 0 <= n < i
      ensures Attempt(alone, start, t', pieces[n].lo, pieces[n].hi, pieces[n].pid, pieces[n].mine, listed[n], from,
                      answers(listed[n]), listed[n] in results')
    {
      assert listed[..i][n] == listed[n];
      AttemptStays(alone, start, t, t', pieces[n].lo, pieces[n].hi, pieces[n].pid, pieces[n].mine, listed[n], from,
                   answers(listed[n]), listed[n] in results);
    }
  }

  lemma OneMorePiece(pieces: seq<Piece>, p: Piece, lo: nat, mid: nat, hi: nat)
    requires Tiled(pieces, lo, mid) && p.lo == mid && p.hi == hi
    ensures Tiled(pieces + [p], lo, hi)
  {
  }

  // Facts that an operation relies on while others take steps

  /** The WireGuard subnets that the administrator configured are prefixes. */
  predicate SubnetsValid(servers: seq<Server>) {
    forall s :: 0 <= s < |servers| && servers[s].subnet.Some? ==> Cidr.ValidPrefix(servers[s].subnet.value)
  }

  lemma SubnetsKept(db: Db, db': Db)
    requires KeepsRows(db, db') && SubnetsValid(db.servers)
    ensures |db'.servers| == |db.servers| && SubnetsValid(db'.servers)
  {
  }

  lemma KeyOfKept(db: Db, db': Db, k: nat, sub: nat)
    requires KeepsRows(db, db') && KeyOf(db, k, sub)
    ensures KeyOf(db', k, sub) && db'.keys[k].material == db.keys[k].material
  {
    assert db'.keys[k].(active := db.keys[k].active) == db.keys[k];
  }

  lemma SubKept(db: Db, db': Db, sub: nat)
    requires KeepsRows(db, db') && sub < |db.subs|
    ensures sub < |db'.subs| && db'.subs[sub].protocol == db.subs[sub].protocol
    ensures db'.subs[sub].country == db.subs[sub].country
  {
  }

  /** A key of a subscription always has a credential for its protocol. */
  lemma HasCredential(w: World, k: nat, sub: nat)
    requires Inv(w) && KeyOf(w.db, k, sub)
    ensures sub < |w.db.subs| && RemovalTarget(w.db.subs[sub].protocol, w.db.keys[k].material).Some?
  {
    assert Shaped(w.db.subs[w.db.configs[k].sub].protocol, w.db.keys[k].material);
  }

  /** No active key means that the subscription is deleted. */
  lemma KeylessIsDeleted(w: World, sub: nat)
    requires Inv(w) && sub < |w.db.subs| && forall i: nat :: !ActiveKeyOf(w.db, i, sub)
    ensures IsDeleted(w, sub)
  {
    var live := OneLiveCredential(w.db, sub);
  }

  /** Names for operations never run out. */
  lemma {:induction false} UnusedName(used: set<nat>) returns (pid: nat)
    ensures forall n :: n in used ==> n < pid
  {
    if used == {} {
      pid := 0;
    } else {
      var n :| n in used;
      var rest := UnusedName(used - {n});
      pid := if rest > n then rest else n + 1;
      assert forall m :: m in used ==> m == n || m in used - {n};
    }
  }

  /**
   * Whatever steps others take, however many: what an operation may rely on still holds. So the contract of
   * Interfere admits them all.
   */
  lemma OthersAllowed(start: World, trace: seq<Step>, steps: seq<Step>, pid: nat)
    requires Inv(start) && Legal(start, trace) && Legal(Run(start, trace), steps)
    requires forall i :: 0 <= i < |steps| ==> Owner(steps[i]) != Some(pid)
    ensures Legal(start, trace + steps)
    ensures var w, v := Run(start, trace), Run(start, trace + steps);
            && Inv(v) && v == Run(w, steps) && KeepsRows(w.db, v.db)
            && (pid in v.procs <==> pid in w.procs) && (pid in w.procs ==> v.procs[pid] == w.procs[pid])
    ensures Took(false, trace, trace + steps, Owner, pid, [])
  {
    hide Inv, KeepsRows, Legal, Run, Owner;
    RunKeeps(start, trace);
    RunConcat(start, trace, steps);
    RunKeeps(Run(start, trace), steps);
    RowsOverRun(Run(start, trace), steps);
    OthersLeave(Run(start, trace), steps, pid);
    NothingOwned(steps, Owner, pid);
    assert (trace + steps)[|trace|..] == steps;
  }
}

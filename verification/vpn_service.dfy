/**
 * The service methods as sequential code. Between any two of their steps Interfere lets the rest of the
 * system take any legal steps; the ghost trace records who did what.
 */
module VpnService {
  import opened Words
  import opened Text
  import opened Traces
  import opened Cidr
  import opened Allocator
  import opened Subscriptions
  import opened VpnTables
  import opened VpnRepository
  import opened VpnProtocol
  import opened VpnTrails

  /** The address part of generateWireGuard: the subnet goes in as text, and the mask comes off the result. */
  method AssignAddress(subnet: Prefix, used: seq<string>) returns (ip: Option<u32>)
    requires ValidPrefix(subnet)
    ensures ip == Choice(subnet, TakenSet(used))
  {
    hide PrintBlock, IpString, ParseCIDR, ParseIPv4, Choice, TakenSet;
    var text := PrintBlock(PrefixBlock(subnet));
    PrintedBlockReadBack(PrefixBlock(subnet));
    hide LowClear, Pow2;
    var r := AllocateWireGuardIP(text, used);
    match r {
      case Failed(_) => return None;
      case Allocated(address) =>
        ghost var a := Choice(subnet, TakenSet(used)).value;
        var ipHost := address[..|address| - 3];
        assert ipHost == IpString(a);
        OctetsReadBack(a);
        return ParseIPv4(ipHost);
    }
  }

  /** The running system. When alone holds nobody else takes steps, which shows exactly what a method does itself. */
  class Platform {
    const repo: Repository
    var installed: set<(nat, Protocol, nat)>
    var next: nat
    ghost var procs: map<nat, Proc>
    ghost var trace: seq<Step>
    ghost const start: World
    ghost const alone: bool

    constructor (repo: Repository, ghost alone: bool)
      requires repo.subs == [] && repo.configs == [] && repo.keys == []
      requires forall s :: 0 <= s < |repo.servers| ==> repo.servers[s].clientCount == 0
      ensures Valid() && this.repo == repo && this.alone == alone && trace == [] && procs == map[]
    {
      this.repo, this.alone := repo, alone;
      installed, next := {}, 0;
      procs, trace := map[], [];
      start := World(repo.Tables(), {}, map[], 0);
      new;
      InitialInv(start);
    }

    ghost function Now(): World
      reads this, repo
    {
      World(repo.Tables(), installed, procs, next)
    }

    ghost predicate Valid()
      reads this, repo
    {
      Inv(start) && Legal(start, trace) && Run(start, trace) == Now()
    }

    lemma ValidInv()
      requires Valid()
      ensures Inv(Now())
    {
      RunKeeps(start, trace);
    }

    lemma ValidLinked()
      requires Valid()
      ensures Linked(repo.Tables())
    {
      ValidInv();
    }

    /**
     * The rest of the system takes any number of steps; callers may rely on nothing but this contract, which
     * OthersAllowed shows to admit all steps of others.
     */
    method Interfere(ghost pid: nat)
      requires Valid()
      modifies this, repo
      ensures Valid() && Took(alone, old(trace), trace, Owner, pid, [])
      ensures KeepsRows(old(repo.Tables()), repo.Tables())
      ensures (pid in procs <==> pid in old(procs)) && (pid in procs ==> procs[pid] == old(procs)[pid])
    {
      SameRows(repo.Tables());
      TookNothing(alone, trace, Owner, pid);
    }

    /** Generating material; for WireGuard the address comes from the allocator, as text. */
    method GenerateMaterial(server: nat, protocol: Protocol) returns (m: Option<Material>)
      requires server < |repo.servers|
      requires repo.servers[server].subnet.Some? ==> ValidPrefix(repo.servers[server].subnet.value)
      ensures m == Generate(repo.Tables(), server, protocol, next)
      ensures m.None? <==> CannotGive(repo.Tables(), server, protocol)
    {
      NothingToGive(repo.Tables(), server, protocol, next);
      hide CannotGive;
      if !Configured(repo.servers[server], protocol) {
        return None;
      }
      if protocol != WireGuard {
        return Some(Material(None, Some(next), None));
      }
      var subnet := repo.servers[server].subnet;
      hide Choice, TakenSet, AddressesUsed, LowClear, Pow2;
      var used := repo.ListUsedIPs(server);
      var ip := AssignAddress(subnet.value, used);
      m := if ip.None? then None else Some(Material(Some(next), None, ip));
    }

    /** The bookkeeping of a step of one operation whose effect has just happened. */
    ghost method Record(w: World, s: Step, pid: nat)
      requires Inv(start) && Legal(start, trace) && Run(start, trace) == w && Enabled(w, s)
      requires repo.Tables() == Do(w, s).db && installed == Do(w, s).installed && next == Do(w, s).next
      requires Owner(s) == Some(pid)
      modifies this`procs, this`trace
      ensures Valid() && Now() == Do(w, s) && KeepsRows(w.db, repo.Tables())
      ensures trace == old(trace) + [s] && Took(alone, old(trace), trace, Owner, pid, [s])
    {
      hide Do, Enabled, Inv, KeepsRows, Took, Owner;
      RunKeeps(start, trace);
      StepRows(w, s);
      RunAppend(start, trace, s);
      TookOne(alone, trace, s, Owner, pid);
      procs, trace := Do(w, s).procs, trace + [s];
    }

    /** One call of the node agent that adds the client of an operation; ok tells what it answers. */
    method AddToNode(ghost pid: nat, server: nat, protocol: Protocol, m: Material, ok: bool)
      requires Valid() && Running(Now(), pid) && !procs[pid].provisioned
      requires procs[pid].server == server && procs[pid].protocol == protocol && procs[pid].m == m
      modifies this
      ensures Valid() && Took(alone, old(trace), trace, Owner, pid, [if ok then AddOk(pid) else AddFailed(pid)])
      ensures ok ==> pid in procs && procs[pid] == old(procs)[pid].(provisioned := true)
    {
      ValidInv();
      assert ProcOk(Now(), procs[pid]);
      hide Inv, Legal, Run, Took, KeepsRows, IssueOk;
      ghost var w := Now();
      if ok {
        var cred := if m.publicKey.Some? then m.publicKey.value else m.clientUuid.value;
        installed := installed + {(server, protocol, cred)};
        Record(w, AddOk(pid), pid);
      } else {
        Record(w, AddFailed(pid), pid);
      }
    }

    ghost method GiveUp(pid: nat)
      requires Valid() && pid in procs
      modifies this`procs, this`trace
      ensures Valid() && Took(alone, old(trace), trace, Owner, pid, [Stop(pid)])
    {
      hide Inv, Legal, Run, Took, KeepsRows;
      Record(Now(), Stop(pid), pid);
    }

    /** Persist, as the last step of a create. */
    method CommitCreate(ghost pid: nat, p: NewSub, server: nat, m: Material) returns (sub: Option<nat>)
      requires Valid() && Running(Now(), pid) && procs[pid] == Issue(Fresh(p), p.protocol, server, m, true)
      modifies this, repo
      ensures Valid()
      ensures Took(alone, old(trace), trace, Owner, pid, [if sub.Some? then Commit(pid) else Refused(pid)])
      ensures sub.Some? ==> sub.value < |repo.subs|
                            && repo.subs[sub.value] == Sub(p.user, server, p.country, p.protocol, Active, p.expiresAt)
      ensures sub.Some? ==>
                && |repo.keys| > 0
                && var k := repo.keys[|repo.keys| - 1];
                   && k.active && k.server == server && k.config < |repo.configs|
                   && repo.configs[k.config] == Config(sub.value, 1)
                   && IsInstalled(Now(), server, p.protocol, k.material)
    {
      ghost var w := Now();
      hide Inv, Legal, Run, Took, KeepsRows, AddressFree, AddCount, IsInstalled;
      ValidInv();
      sub := repo.Persist(p, server, m);
      if sub.Some? {
        CreateIssues(w, pid);
        Record(w, Commit(pid), pid);
      } else {
        Record(w, Refused(pid), pid);
      }
    }

    /** Reassign, as the last database step of a move. */
    method CommitMove(ghost pid: nat, sub: nat, from: nat, ghost former: Option<nat>, server: nat, m: Material)
      returns (ok: bool)
      requires Valid() && Running(Now(), pid)
      requires procs[pid].target == Move(sub, from, former)
      requires procs[pid].server == server && procs[pid].m == m && procs[pid].provisioned
      modifies this, repo
      ensures Valid() && KeepsRows(old(repo.Tables()), repo.Tables())
      ensures trace == old(trace) + [if ok then Commit(pid) else Refused(pid)]
      ensures Took(alone, old(trace), trace, Owner, pid, [if ok then Commit(pid) else Refused(pid)])
      ensures ok ==> pid in procs && procs[pid] == Remove(from, old(procs)[pid].protocol, former)
      ensures ok ==> MovedAt(start, trace, |old(trace)|, pid, sub, from)
    {
      ghost var w := Now();
      hide Inv, Legal, Run, Took, KeepsRows, MovedAt, VpnTables.Reassign;
      ok := repo.Reassign(sub, from, server, m);
      if ok {
        CommitMoves(start, trace, pid);
        Record(w, Commit(pid), pid);
      } else {
        Record(w, Refused(pid), pid);
      }
    }

    /** A best-effort removal call; a failed one may still reach the node later. */
    method RemoveFromNode(ghost pid: nat, server: nat, protocol: Protocol, cred: nat, a: Answers)
      requires Valid() && pid in procs && procs[pid] == Remove(server, protocol, Some(cred))
      modifies this
      ensures Valid() && Took(alone, old(trace), trace, Owner, pid, [Removal(pid, a)])
      ensures a.removed ==> (server, protocol, cred) !in installed
    {
      hide Inv, Legal, Run, Took, KeepsRows;
      ghost var w := Now();
      if a.removed {
        installed := installed - {(server, protocol, cred)};
        Record(w, RemoveOk(pid), pid);
      } else {
        Record(w, RemoveFailed(pid), pid);
      }
    }

    /** Recording that material was generated, which uses up a credential. */
    method Begin(ghost s: Step, ghost pid: nat)
      requires Valid() && Enabled(Now(), s) && Owner(s) == Some(pid) && (s.BeginCreate? || s.BeginMove?)
      modifies this
      ensures Valid() && Took(alone, old(trace), trace, Owner, pid, [s])
      ensures procs == Do(old(Now()), s).procs
    {
      ghost var w := Now();
      hide Inv, Legal, Run, Took, KeepsRows, Generate;
      next := next + 1;
      Record(w, s, pid);
    }

    /** The node call and the transaction of a create; rest lists the steps taken. */
    method CreateIssued(ghost pid: nat, p: NewSub, server: nat, m: Material, a: Answers)
      returns (sub: Option<nat>, ghost rest: seq<Step>)
      requires Valid()
      requires pid in procs && procs[pid] == Issue(Fresh(p), p.protocol, server, m, false)
      modifies this, repo
      ensures Valid() && Took(alone, old(trace), trace, Owner, pid, rest) && IssueTrail(rest, pid, a)
      ensures sub.Some? <==> Commit(pid) in rest
      ensures sub.Some? ==>
                && sub.value < |repo.subs|
                && repo.subs[sub.value] == Sub(p.user, server, p.country, p.protocol, Active, p.expiresAt)
      ensures sub.Some? ==>
                && |repo.keys| > 0
                && var k := repo.keys[|repo.keys| - 1];
                   && k.active && k.server == server && k.config < |repo.configs|
                   && repo.configs[k.config] == Config(sub.value, 1)
                   && IsInstalled(Now(), server, p.protocol, k.material)
    {
      hide Inv, Legal, Run, Generate, CommitDb, KeepsRows, Took, IsInstalled;
      ghost var t0 := trace;
      Interfere(pid);
      ghost var t1 := trace;
      AddToNode(pid, server, p.protocol, m, a.added);
      rest := [if a.added then AddOk(pid) else AddFailed(pid)];
      TookThen(alone, t0, t1, trace, Owner, pid, [], rest, rest);
      sub := None;
      if !a.added {
        return;
      }
      ghost var t2 := trace;
      Interfere(pid);
      ghost var t3 := trace;
      TookThen(alone, t0, t2, t3, Owner, pid, rest, [], rest);
      ghost var last;
      if a.stored {
        sub := CommitCreate(pid, p, server, m);
        last := if sub.Some? then Commit(pid) else Refused(pid);
      } else {
        GiveUp(pid);
        last := Stop(pid);
      }
      TookThen(alone, t0, t3, trace, Owner, pid, rest, [last], rest + [last]);
      rest := rest + [last];
      assert rest[1] == last;
    }

    /**
     * Create: the node is provisioned before anything is written. It takes no step at all when no server
     * qualifies or the preferred one cannot give material; otherwise it begins on the preferred server, and
     * when the node and the store do their part it succeeds unless the transaction refuses.
     */
    method Create(ghost pid: nat, p: NewSub, a: Answers) returns (sub: Option<nat>, ghost mine: seq<Step>)
      requires Valid() && pid !in procs
      requires SubnetsValid(repo.servers)
      modifies this, repo
      ensures Valid() && Took(alone, old(trace), trace, Owner, pid, mine)
      ensures mine == [] ==> NoServer(old(Now()), Now(), p.country, p.protocol, false, None)
      ensures mine != [] ==>
                && mine[0].BeginCreate? && CreateTrail(mine, pid, p, mine[0].server, a)
                && IsBest(old(repo.servers), mine[0].server, p.country, p.protocol, false, None)
      ensures mine != [] ==>
                var b, all := mine[0].server, old(repo.servers);
                var fits := (k: nat, s: Server) =>
                  && s.country == p.country && s.status == Serving
                  && (p.protocol == WireGuard ==> {WgPort, WgPublicKey} <= s.columns && s.subnet.Some?)
                  && (p.protocol == VlessReality ==> {RealityPort, RealityPublicKey} <= s.columns)
                  && (p.protocol == Shadowsocks ==> {SsPort, SsServerKey} <= s.columns)
                  && (p.protocol == Trojan ==> {TrojanPort, RealityPublicKey} <= s.columns);
                && b < |all| && fits(b, all[b])
                && forall k: nat :: k < |all| && fits(k, all[k]) ==>
                     if all[k].reserve != all[b].reserve then all[b].reserve == false
                     else if all[k].priority != all[b].priority then all[b].priority < all[k].priority
                     else all[b].clientCount <= all[k].clientCount
      ensures sub.Some? <==> Commit(pid) in mine
      ensures sub.Some? ==>
                && mine != [] && mine[0].BeginCreate? && sub.value < |repo.subs|
                && repo.subs[sub.value] == Sub(p.user, mine[0].server, p.country, p.protocol, Active, p.expiresAt)
      ensures sub.Some? ==>
                && |repo.keys| > 0
                && var k := repo.keys[|repo.keys| - 1];
                   && k.active && k.server == mine[0].server && k.config < |repo.configs|
                   && repo.configs[k.config] == Config(sub.value, 1)
                   && IsInstalled(Now(), mine[0].server, p.protocol, k.material)
    {
      hide Inv, Legal, Run, Generate, CommitDb, KeepsRows, Took, Candidate, Preferred, CannotGive, IsInstalled;
      hide IsBest, IssueTrail;
      ghost var t0, w0 := trace, Now();
      sub, mine := None, [];
      TookNothing(alone, t0, Owner, pid);
      var server := repo.SelectServer(p.country, p.protocol, false, None);
      if server.None? {
        return;
      }
      BestMeans(repo.servers, server.value, p.country, p.protocol, false, None);
      Interfere(pid);
      SubnetsKept(w0.db, repo.Tables());
      var m := GenerateMaterial(server.value, p.protocol);
      if m.None? {
        return;
      }
      ghost var begin := BeginCreate(pid, p, server.value);
      ghost var t1 := trace;
      Begin(begin, pid);
      ghost var t2 := trace;
      TookThen(alone, t0, t1, t2, Owner, pid, [], [begin], [begin]);
      ghost var rest: seq<Step>;
      sub, rest := CreateIssued(pid, p, server.value, m.value, a);
      TookThen(alone, t0, t2, trace, Owner, pid, [begin], rest, [begin] + rest);
      mine := [begin] + rest;
      CommitInTrail(begin, rest, pid);
    }

    /**
     * Delete: the database goes first, and then the node is told to drop the credential that the scan picks,
     * if it picks one. An unknown subscription changes nothing.
     */
    method DeleteVpn(ghost pid: nat, user: nat, sub: nat, scan: seq<nat>, a: Answers)
      returns (found: bool, ghost mine: seq<Step>)
      requires Valid() && pid !in procs
      requires Deletable(repo.Tables(), user, sub) ==> IsScan(repo.Tables(), sub, scan)
      modifies this, repo
      ensures Valid() && Took(alone, old(trace), trace, Owner, pid, mine)
      ensures found <==> sub < |old(repo.subs)| && old(repo.subs)[sub].user == user
                         && old(repo.subs)[sub].status != Deleted
      ensures found == Deletable(old(repo.Tables()), user, sub)
      ensures !found ==> mine == [] && repo.Tables() == old(repo.Tables())
      ensures found ==>
                var delete := Delete(pid, user, sub, scan);
                if DeletionTarget(old(repo.Tables()), sub, scan).None? then mine == [delete]
                else mine == [delete, Removal(pid, a)]
      ensures found && a.removed && DeletionTarget(old(repo.Tables()), sub, scan).Some? ==>
                (old(repo.subs)[sub].server, old(repo.subs)[sub].protocol,
                 DeletionTarget(old(repo.Tables()), sub, scan).value) !in installed
    {
      hide Inv, Legal, Run, KeepsRows, Took;
      ghost var w, t0 := Now(), trace;
      mine := [];
      TookNothing(alone, t0, Owner, pid);
      ValidLinked();
      var d := repo.SoftDelete(user, sub, scan);
      if d.None? {
        return false, [];
      }
      found := true;
      var target := RemovalTarget(d.value.protocol, d.value.picked);
      mine := [Delete(pid, user, sub, scan)];
      Record(w, mine[0], pid);
      if target.None? {
        return;
      }
      ghost var t1 := trace;
      Interfere(pid);
      ghost var t2 := trace;
      TookThen(alone, t0, t1, t2, Owner, pid, mine, [], mine);
      RemoveFromNode(pid, d.value.server, d.value.protocol, target.value, a);
      ghost var last := Removal(pid, a);
      TookThen(alone, t0, t2, trace, Owner, pid, mine, [last], mine + [last]);
      mine := mine + [last];
    }

    /** The removal of the old key from the node, when there is one to remove. */
    method Deprovision(ghost pid: nat, from: nat, protocol: Protocol, former: Option<nat>, a: Answers)
      returns (ghost rest: seq<Step>)
      requires Valid() && pid in procs && procs[pid] == Remove(from, protocol, former)
      modifies this, repo
      ensures Valid() && KeepsRows(old(repo.Tables()), repo.Tables())
      ensures Took(alone, old(trace), trace, Owner, pid, rest)
      ensures rest == if former.None? then [] else [Removal(pid, a)]
      ensures former.Some? && a.removed ==> (from, protocol, former.value) !in installed
    {
      hide Inv, Legal, Run, KeepsRows, Took;
      ghost var t0 := trace;
      Interfere(pid);
      rest := [];
      if former.Some? {
        ghost var t1 := trace;
        RemoveFromNode(pid, from, protocol, former.value, a);
        rest := [Removal(pid, a)];
        TookThen(alone, t0, t1, trace, Owner, pid, [], rest, rest);
      }
    }

    /** The node call and the transaction of a migration. */
    method MoveCommitted(ghost pid: nat, sub: nat, from: nat, ghost former: Option<nat>, server: nat,
                         protocol: Protocol, m: Material, a: Answers)
      returns (migrated: bool, ghost rest: seq<Step>)
      requires Valid()
      requires pid in procs && procs[pid] == Issue(Move(sub, from, former), protocol, server, m, false)
      modifies this, repo
      ensures Valid() && KeepsRows(old(repo.Tables()), repo.Tables()) && old(trace) <= trace
      ensures Took(alone, old(trace), trace, Owner, pid, rest) && IssueTrail(rest, pid, a)
      ensures migrated <==> Commit(pid) in rest
      ensures migrated ==>
                && pid in procs && procs[pid] == Remove(from, protocol, former)
                && MovedWithin(start, trace, |old(trace)|, |trace|, pid, sub, from)
    {
      hide Inv, Legal, Run, Generate, CommitDb, KeepsRows, Took, MovedAt;
      ghost var t0, db0 := trace, repo.Tables();
      Interfere(pid);
      ghost var t1, db1 := trace, repo.Tables();
      AddToNode(pid, server, protocol, m, a.added);
      rest := [if a.added then AddOk(pid) else AddFailed(pid)];
      migrated := false;
      TookThen(alone, t0, t1, trace, Owner, pid, [], rest, rest);
      TookGrows(alone, t0, trace, Owner, pid, rest);
      if !a.added {
        return;
      }
      ghost var t2 := trace;
      Interfere(pid);
      ghost var t3, db2 := trace, repo.Tables();
      TookThen(alone, t0, t2, t3, Owner, pid, rest, [], rest);
      TookGrows(alone, t0, t3, Owner, pid, rest);
      RowsTransitive(db0, db1, db2);
      ghost var last;
      if a.stored {
        migrated := CommitMove(pid, sub, from, former, server, m);
        last := if migrated then Commit(pid) else Refused(pid);
        RowsTransitive(db0, db2, repo.Tables());
      } else {
        GiveUp(pid);
        last := Stop(pid);
      }
      TookThen(alone, t0, t3, trace, Owner, pid, rest, [last], rest + [last]);
      TookGrows(alone, t0, trace, Owner, pid, rest + [last]);
      rest := rest + [last];
    }

    /** The node call and the transaction of a migration, and the removal that follows. */
    method MoveIssued(ghost pid: nat, sub: nat, from: nat, former: Option<nat>, server: nat, protocol: Protocol,
                      m: Material, a: Answers)
      returns (migrated: bool, ghost rest: seq<Step>)
      requires Valid()
      requires pid in procs && procs[pid] == Issue(Move(sub, from, former), protocol, server, m, false)
      modifies this, repo
      ensures Valid() && KeepsRows(old(repo.Tables()), repo.Tables())
      ensures Took(alone, old(trace), trace, Owner, pid, rest) && MoveRest(rest, pid, former.Some?, a)
      ensures migrated <==> Commit(pid) in rest
      ensures migrated ==> MovedWithin(start, trace, |old(trace)|, |trace|, pid, sub, from)
      ensures migrated && former.Some? && a.removed ==> (from, protocol, former.value) !in installed
    {
      hide Inv, Legal, Run, KeepsRows, Took, MovedWithin;
      ghost var t0, db0 := trace, repo.Tables();
      migrated, rest := MoveCommitted(pid, sub, from, former, server, protocol, m, a);
      if !migrated {
        return;
      }
      ghost var t1, db1 := trace, repo.Tables();
      ghost var last := Deprovision(pid, from, protocol, former, a);
      TookThen(alone, t0, t1, trace, Owner, pid, rest, last, rest + last);
      TookGrows(alone, t1, trace, Owner, pid, last);
      RowsTransitive(db0, db1, repo.Tables());
      MovedLater(start, t1, trace, |t0|, pid, sub, from);
      rest := rest + last;
    }

    /** OldKeyForSub, when the lookup works. */
    method FindOldKey(sub: nat, lookups: bool) returns (oldKey: Option<nat>)
      requires Valid() && sub < |repo.subs|
      ensures oldKey.Some? ==> KeyOf(repo.Tables(), oldKey.value, sub)
      ensures oldKey.Some? ==> RemovalTarget(repo.subs[sub].protocol, repo.keys[oldKey.value].material).Some?
      ensures if lookups then KeyAt(start, trace, |trace|, sub, oldKey) else oldKey.None?
    {
      hide Legal, Run;
      ValidInv();
      oldKey := None;
      if lookups {
        oldKey := repo.OldKeyForSub(sub);
        if oldKey.None? {
          KeylessIsDeleted(Now(), sub);
        } else {
          HasCredential(Now(), oldKey.value, sub);
        }
        assert trace[..|trace|] == trace;
      }
    }

    /** The first half of the migration loop: the reserve server, the old key and the new material. */
    method PlanMove(ghost pid: nat, sub: nat, from: nat, lookups: bool)
      returns (server: Option<nat>, oldKey: Option<nat>, m: Option<Material>)
      requires Valid() && sub < |repo.subs| && from < |repo.servers| && SubnetsValid(repo.servers)
      modifies this, repo
      ensures Valid() && KeepsRows(old(repo.Tables()), repo.Tables())
      ensures Took(alone, old(trace), trace, Owner, pid, [])
      ensures pid in procs <==> pid in old(procs)
      ensures m.None? ==> NoServer(old(Now()), Now(), old(repo.subs)[sub].country, old(repo.subs)[sub].protocol,
                                   true, Some(from))
      ensures m.Some? ==>
                && server.Some? && sub < |repo.subs|
                && IsBest(old(repo.servers), server.value, old(repo.subs)[sub].country, old(repo.subs)[sub].protocol,
                          true, Some(from))
                && m == Generate(repo.Tables(), server.value, repo.subs[sub].protocol, next)
                && repo.subs[sub].protocol == old(repo.subs)[sub].protocol
                && (oldKey.Some? ==> KeyOf(repo.Tables(), oldKey.value, sub)
                                     && RemovalTarget(repo.subs[sub].protocol, repo.keys[oldKey.value].material).Some?)
                && (if lookups then KeyWithin(start, trace, |old(trace)|, |trace|, sub, oldKey) else oldKey.None?)
    {
      hide Inv, Legal, Run, Generate, KeepsRows, Preferred, Candidate, CannotGive, Took, KeyAt;
      ghost var t0, w0 := trace, Now();
      oldKey, m := None, None;
      SameRows(w0.db);
      TookNothing(alone, t0, Owner, pid);
      var protocol := repo.subs[sub].protocol;
      server := repo.SelectServer(repo.subs[sub].country, protocol, true, Some(from));
      if server.None? {
        return;
      }
      Interfere(pid);
      ghost var t1, db1 := trace, repo.Tables();
      SubKept(w0.db, db1, sub);
      oldKey := FindOldKey(sub, lookups);
      Interfere(pid);
      ghost var t2, db2 := trace, repo.Tables();
      TookThen(alone, t0, t1, t2, Owner, pid, [], [], []);
      TookGrows(alone, t0, t1, Owner, pid, []);
      TookGrows(alone, t1, t2, Owner, pid, []);
      RowsTransitive(w0.db, db1, db2);
      SubKept(w0.db, db2, sub);
      SubnetsKept(w0.db, db2);
      if oldKey.Some? {
        KeyOfKept(db1, db2, oldKey.value, sub);
      }
      if lookups {
        KeyLater(start, t1, t2, |t0|, sub, oldKey);
      }
      m := GenerateMaterial(server.value, protocol);
    }

    /** The second half of the migration loop, for a server and material that are decided. */
    method MoveTo(ghost pid: nat, sub: nat, from: nat, server: nat, oldKey: Option<nat>, m: Material, a: Answers)
      returns (migrated: bool, ghost rest: seq<Step>)
      requires Valid() && pid !in procs && sub < |repo.subs| && from < |repo.servers| && server != from
      requires Generate(repo.Tables(), server, repo.subs[sub].protocol, next) == Some(m)
      requires oldKey.Some? ==>
                 && KeyOf(repo.Tables(), oldKey.value, sub)
                 && RemovalTarget(repo.subs[sub].protocol, repo.keys[oldKey.value].material).Some?
      modifies this, repo
      ensures Valid() && KeepsRows(old(repo.Tables()), repo.Tables())
      ensures Took(alone, old(trace), trace, Owner, pid, [BeginMove(pid, sub, from, server, oldKey)] + rest)
      ensures MoveRest(rest, pid, oldKey.Some?, a) && (migrated <==> Commit(pid) in rest)
      ensures migrated ==> MovedWithin(start, trace, |old(trace)|, |trace|, pid, sub, from)
      ensures migrated && oldKey.Some? && a.removed ==>
                && oldKey.value < |repo.keys|
                && var protocol, m := old(repo.subs)[sub].protocol, repo.keys[oldKey.value].material;
                   && (if protocol == WireGuard then m.publicKey else m.clientUuid).Some?
                   && (from, protocol, (if protocol == WireGuard then m.publicKey else m.clientUuid).value)
                      !in installed
    {
      hide Inv, Legal, Run, Generate, CommitDb, KeepsRows, Took, MovedWithin, MoveRest;
      ghost var t0, db0 := trace, repo.Tables();
      var protocol := repo.subs[sub].protocol;
      var former := if oldKey.Some? then RemovalTarget(protocol, repo.keys[oldKey.value].material) else None;
      ghost var begin := BeginMove(pid, sub, from, server, oldKey);
      Begin(begin, pid);
      ghost var t1 := trace;
      SameRows(db0);
      TookGrows(alone, t0, t1, Owner, pid, [begin]);
      migrated, rest := MoveIssued(pid, sub, from, former, server, protocol, m, a);
      TookThen(alone, t0, t1, trace, Owner, pid, [begin], rest, [begin] + rest);
      if oldKey.Some? {
        KeyOfKept(db0, repo.Tables(), oldKey.value, sub);
      }
      if migrated {
        MovedEarlier(start, trace, |t0|, |t1|, pid, sub, from);
      }
    }

    /**
     * The body of the migration loop for one subscription: when the node and the store do their part, the
     * transaction is tried, and after it the old key is withdrawn.
     */
    method MigrateOne(ghost pid: nat, sub: nat, from: nat, a: Answers)
      returns (migrated: bool, ghost mine: seq<Step>)
      requires Valid() && pid !in procs
      requires sub < |repo.subs| && from < |repo.servers| && SubnetsValid(repo.servers)
      modifies this, repo
      ensures Valid() && KeepsRows(old(repo.Tables()), repo.Tables())
      ensures old(trace) <= trace
      ensures Attempt(alone, start, trace, |old(trace)|, |trace|, pid, mine, sub, from, a, migrated)
      ensures mine != [] && mine[0].BeginMove? ==>
                var b, all, row := mine[0].server, old(repo.servers), old(repo.subs)[sub];
                var fits := (k: nat, s: Server) =>
                  && s.country == row.country && s.status == Serving && k != from
                  && (row.protocol == WireGuard ==> {WgPort, WgPublicKey} <= s.columns && s.subnet.Some?)
                  && (row.protocol == VlessReality ==> {RealityPort, RealityPublicKey} <= s.columns)
                  && (row.protocol == Shadowsocks ==> {SsPort, SsServerKey} <= s.columns)
                  && (row.protocol == Trojan ==> {TrojanPort, RealityPublicKey} <= s.columns);
                && b < |all| && fits(b, all[b])
                && forall k: nat :: k < |all| && fits(k, all[k]) ==>
                     if all[k].reserve != all[b].reserve then all[b].reserve == true
                     else if all[k].priority != all[b].priority then all[b].priority < all[k].priority
                     else all[b].clientCount <= all[k].clientCount
      ensures migrated && mine[0].oldKey.Some? && a.removed ==>
                && mine[0].oldKey.value < |repo.keys|
                && var row, m := old(repo.subs)[sub], repo.keys[mine[0].oldKey.value].material;
                   && (if row.protocol == WireGuard then m.publicKey else m.clientUuid).Some?
                   && (from, row.protocol, (if row.protocol == WireGuard then m.publicKey else m.clientUuid).value)
                      !in installed
    {
      hide Inv, Legal, Run, Generate, CommitDb, KeepsRows, IsBest, NoServer, Took, KeyWithin, MovedWithin, MoveRest;
      hide Attempt, Removal, Owner, RemovalTarget;
      ghost var t0, w0 := trace, Now();
      migrated, mine := false, [];
      var server, oldKey, m := PlanMove(pid, sub, from, a.lookups);
      if m.None? {
        TookGrows(alone, t0, trace, Owner, pid, []);
        NoMove(alone, start, t0, trace, pid, sub, from, a);
        return;
      }
      BestMeans(w0.db.servers, server.value, w0.db.subs[sub].country, w0.db.subs[sub].protocol, true, Some(from));
      BestIsOther(w0.db.servers, server.value, w0.db.subs[sub].country, w0.db.subs[sub].protocol, true, from);
      ghost var t1, db1 := trace, repo.Tables();
      SubnetsKept(w0.db, db1);
      ghost var rest: seq<Step>;
      migrated, rest := MoveTo(pid, sub, from, server.value, oldKey, m.value, a);
      mine := [BeginMove(pid, sub, from, server.value, oldKey)] + rest;
      TookThen(alone, t0, t1, trace, Owner, pid, [], mine, mine);
      RowsTransitive(w0.db, db1, repo.Tables());
      TookGrows(alone, t0, t1, Owner, pid, []);
      TookGrows(alone, t1, trace, Owner, pid, mine);
      MoveDone(alone, start, t0, t1, trace, pid, mine[0], rest, a, migrated);
    }

    /**
     * MigrateServer: pieces divides what happens into one attempt for each subscription that was active on
     * the server, in order, and results lists exactly those whose move was committed.
     */
    method MigrateServer(from: nat, answers: nat -> Answers)
      returns (results: seq<nat>, ghost listed: seq<nat>, ghost pieces: seq<Piece>)
      requires Valid() && from < |repo.servers| && SubnetsValid(repo.servers)
      modifies this, repo
      ensures Valid() && Tiled(pieces, |old(trace)|, |trace|)
      ensures forall s: nat :: s in listed <==>
                s < |old(repo.subs)| && old(repo.subs)[s].server == from && old(repo.subs)[s].status == Active
      ensures Ascending(listed) && Reported(results, listed)
      ensures Attempts(alone, start, trace, pieces, listed, from, answers, results)
    {
      hide Inv, Legal, Run, KeepsRows, Attempt, Attempts, Reported, Tiled;
      ghost var t0, db0 := trace, repo.Tables();
      var subs := repo.ActiveSubsOnServer(from);
      listed, pieces, results := subs, [], [];
      SameRows(db0);
      NoAttempts(alone, start, trace, |trace|, from, answers);
      for i := 0 to |subs|
        invariant Valid() && KeepsRows(db0, repo.Tables()) && |pieces| == i && Tiled(pieces, |t0|, |trace|)
        invariant Reported(results, subs[..i])
        invariant Attempts(alone, start, trace, pieces, subs[..i], from, answers, results)
      {
        var sub := subs[i];
        assert sub in subs;
        ghost var pid := UnusedName(procs.Keys);
        SubKept(db0, repo.Tables(), sub);
        SubnetsKept(db0, repo.Tables());
        ghost var before, db1 := trace, repo.Tables();
        ghost var mine: seq<Step>;
        var migrated: bool;
        migrated, mine := MigrateOne(pid, sub, from, answers(sub));
        RowsTransitive(db0, db1, repo.Tables());
        ghost var p := Piece(|before|, |trace|, pid, mine);
        OneMorePiece(pieces, p, |t0|, |before|, |trace|);
        OneMoreReported(results, subs, i, migrated);
        ghost var reported := results;
        if migrated {
          results := results + [sub];
        }
        OneMoreAttempt(alone, start, before, trace, pieces, p, subs, i, from, answers, reported, results);
        pieces := pieces + [p];
      }
      assert subs[..|subs|] == subs;
    }
  }
}

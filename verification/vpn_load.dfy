/** client_count as the number of subscriptions that a server carries. */
module VpnLoad {
  import opened Subscriptions
  import opened VpnTables

  function Counts(s: Sub, server: nat): nat {
    if s.status != Deleted && s.server == server then 1 else 0
  }

  /** The subscriptions on a server that are not deleted. */
  function Load(subs: seq<Sub>, server: nat): nat {
    if subs == [] then 0 else Load(subs[..|subs| - 1], server) + Counts(subs[|subs| - 1], server)
  }

  ghost predicate LoadExact(db: Db) {
    forall s :: 0 <= s < |db.servers| ==> db.servers[s].clientCount == Load(db.subs, s)
  }

  lemma LoadAppend(subs: seq<Sub>, s: Sub, server: nat)
    ensures Load(subs + [s], server) == Load(subs, server) + Counts(s, server)
  {
    assert (subs + [s])[..|subs|] == subs;
  }

  lemma {:induction false} LoadUpdate(subs: seq<Sub>, i: nat, s: Sub, server: nat)
    requires i < |subs|
    ensures Load(subs[i := s], server) == Load(subs, server) - Counts(subs[i], server) + Counts(s, server)
  {
    var last := |subs| - 1;
    if i < last {
      LoadUpdate(subs[..last], i, s, server);
      assert subs[i := s][..last] == subs[..last][i := s];
    } else {
      assert subs[i := s][..last] == subs[..last];
    }
  }

  lemma {:induction false} LoadCountsEach(subs: seq<Sub>, i: nat, server: nat)
    requires i < |subs|
    ensures Load(subs, server) >= Counts(subs[i], server)
  {
    var last := |subs| - 1;
    if i < last {
      LoadCountsEach(subs[..last], i, server);
    }
  }

  lemma PersistLoad(db: Db, p: NewSub, server: nat, m: Material)
    requires LoadExact(db) && Persist(db, p, server, m).Some?
    ensures LoadExact(Persist(db, p, server, m).value)
  {
    forall s: nat ensures Load(db.subs + [Sub(p.user, server, p.country, p.protocol, Active, p.expiresAt)], s)
                          == Load(db.subs, s) + if s == server then 1 else 0 {
      LoadAppend(db.subs, Sub(p.user, server, p.country, p.protocol, Active, p.expiresAt), s);
    }
  }

  /** Deleting keeps the counts exact, and the clamp at zero never acts. */
  lemma SoftDeleteLoad(db: Db, user: nat, sub: nat)
    requires LoadExact(db) && Deletable(db, user, sub)
    ensures LoadExact(SoftDelete(db, sub))
    ensures db.servers[db.subs[sub].server].clientCount > 0
  {
    var s := db.subs[sub];
    LoadCountsEach(db.subs, sub, s.server);
    forall t: nat ensures Load(db.subs[sub := s.(status := Deleted)], t)
                          == Load(db.subs, t) - if t == s.server then 1 else 0 {
      LoadUpdate(db.subs, sub, s.(status := Deleted), t);
    }
  }

  /** What a caller can check before reassigning a listed subscription. */
  predicate StillThere(db: Db, sub: nat, oldServer: nat)
    requires sub < |db.subs| && oldServer < |db.servers|
  {
    || (db.subs[sub].status != Deleted && db.subs[sub].server == oldServer)
    || (db.subs[sub].status == Deleted && db.servers[oldServer].clientCount == 0)
  }

  /** The load of every server after a reassignment. */
  lemma LoadAfterReassign(db: Db, sub: nat, server: nat, t: nat)
    requires sub < |db.subs|
    ensures Load(db.subs[sub := db.subs[sub].(server := server, status := Active)], t)
            == Load(db.subs, t) - Counts(db.subs[sub], t) + if t == server then 1 else 0
  {
    LoadUpdate(db.subs, sub, db.subs[sub].(server := server, status := Active), t);
  }

  /**
   * Reassigning keeps the counts exact if and only if the subscription is still live on the server it was
   * listed for, or was deleted meanwhile and the clamp at zero hides the extra decrement.
   */
  lemma ReassignLoad(db: Db, sub: nat, oldServer: nat, server: nat, m: Material)
    requires LoadExact(db) && Linked(db) && oldServer != server
    requires Reassign(db, sub, oldServer, server, m).Some?
    ensures LoadExact(Reassign(db, sub, oldServer, server, m).value) <==> StillThere(db, sub, oldServer)
  {
    var db' := Reassign(db, sub, oldServer, server, m).value;
    forall t: nat ensures Load(db'.subs, t)
                          == Load(db.subs, t) - Counts(db.subs[sub], t) + if t == server then 1 else 0 {
      LoadAfterReassign(db, sub, server, t);
    }
    var home := db.subs[sub].server;
    LoadCountsEach(db.subs, sub, home);
    assert db'.servers[server].clientCount == db.servers[server].clientCount + 1;
    assert db'.servers[oldServer].clientCount
           == if db.servers[oldServer].clientCount > 0 then db.servers[oldServer].clientCount - 1 else 0;
    hide Load, Revoke, AddressFree;
    if StillThere(db, sub, oldServer) {
      forall t | 0 <= t < |db'.servers| ensures db'.servers[t].clientCount == Load(db'.subs, t) {
        assert t != server && t != oldServer ==> db'.servers[t].clientCount == db.servers[t].clientCount;
      }
    } else if db.subs[sub].status == Deleted {
      assert db'.servers[oldServer].clientCount != Load(db'.subs, oldServer);
    } else if home == server {
      assert db'.servers[server].clientCount != Load(db'.subs, server);
    } else {
      assert db'.servers[home].clientCount != Load(db'.subs, home);
    }
  }

  // Totals

  function TotalCount(servers: seq<Server>): int {
    if servers == [] then 0 else TotalCount(servers[..|servers| - 1]) + servers[|servers| - 1].clientCount
  }

  /** The subscriptions that are not deleted on one of the first n servers. */
  function LiveBelow(subs: seq<Sub>, n: nat): nat {
    if subs == [] then 0
    else
      LiveBelow(subs[..|subs| - 1], n)
      + if subs[|subs| - 1].status != Deleted && subs[|subs| - 1].server < n then 1 else 0
  }

  lemma {:induction false} LiveBelowStep(subs: seq<Sub>, n: nat)
    ensures LiveBelow(subs, n + 1) == LiveBelow(subs, n) + Load(subs, n)
    ensures LiveBelow(subs, 0) == 0
  {
    if subs != [] {
      LiveBelowStep(subs[..|subs| - 1], n);
    }
  }

  lemma {:induction false} TotalOfPrefix(db: Db, n: nat)
    requires LoadExact(db) && n <= |db.servers|
    ensures TotalCount(db.servers[..n]) == LiveBelow(db.subs, n)
  {
    if n == 0 {
      LiveBelowStep(db.subs, 0);
    } else {
      TotalOfPrefix(db, n - 1);
      LiveBelowStep(db.subs, n - 1);
      assert db.servers[..n][..n - 1] == db.servers[..n - 1];
    }
  }

  function LiveSubs(subs: seq<Sub>): nat {
    if subs == [] then 0
    else LiveSubs(subs[..|subs| - 1]) + if subs[|subs| - 1].status != Deleted then 1 else 0
  }

  lemma {:induction false} AllLiveBelow(subs: seq<Sub>, n: nat)
    requires forall i :: 0 <= i < |subs| ==> subs[i].server < n
    ensures LiveBelow(subs, n) == LiveSubs(subs)
  {
    if subs != [] {
      AllLiveBelow(subs[..|subs| - 1], n);
    }
  }

  /** With exact counts, the counts of all servers add up to the number of live subscriptions. */
  lemma CountsAddUp(db: Db)
    requires LoadExact(db) && Linked(db)
    ensures TotalCount(db.servers) == LiveSubs(db.subs)
  {
    TotalOfPrefix(db, |db.servers|);
    assert db.servers[..|db.servers|] == db.servers;
    AllLiveBelow(db.subs, |db.servers|);
  }
}

/** The repository: SQL transactions and queries over mutable tables. */
module VpnRepository {
  import opened Words
  import opened Text
  import opened Cidr
  import opened Allocator
  import opened Subscriptions
  import opened VpnTables

  /** What a deletion hands back for cleaning up the node. */
  datatype Deletion = Deletion(server: nat, protocol: Protocol, picked: Material)

  class Repository {
    var servers: seq<Server>
    var subs: seq<Sub>
    var configs: seq<Config>
    var keys: seq<Key>

    constructor (servers: seq<Server>)
      ensures Tables() == Db(servers, [], [], [])
    {
      this.servers, subs, configs, keys := servers, [], [], [];
    }

    function Tables(): Db
      reads this
    {
      Db(servers, subs, configs, keys)
    }

    /** Persist: statement by statement, with nothing written before the commit. */
    method Persist(p: NewSub, server: nat, m: Material) returns (sub: Option<nat>)
      modifies this
      ensures match VpnTables.Persist(old(Tables()), p, server, m)
              case None => sub.None? && Tables() == old(Tables())
              case Some(db) => sub == Some(|old(subs)|) && Tables() == db
    {
      if server >= |servers| {
        return None;
      }
      var txSubs := subs + [Sub(p.user, server, p.country, p.protocol, Active, p.expiresAt)];
      var txConfigs := configs + [Config(|subs|, 1)];
      if !AddressFree(keys, server, m.ip) {
        return None;
      }
      var txKeys := keys + [Key(|configs|, server, m, true)];
      var txServers := AddCount(servers, server, 1);
      sub := Some(|subs|);
      subs, configs, keys, servers := txSubs, txConfigs, txKeys, txServers;
    }

    /** Reassign */
    method Reassign(sub: nat, oldServer: nat, server: nat, m: Material) returns (ok: bool)
      modifies this
      ensures match VpnTables.Reassign(old(Tables()), sub, oldServer, server, m)
              case None => !ok && Tables() == old(Tables())
              case Some(db) => ok && Tables() == db
    {
      var txKeys := Revoke(keys, configs, sub);
      var version := NextVersion(sub);
      if sub >= |subs| || server >= |servers| || oldServer >= |servers| {
        return false;
      }
      var txConfigs := configs + [Config(sub, version)];
      if !AddressFree(txKeys, server, m.ip) {
        return false;
      }
      txKeys := txKeys + [Key(|configs|, server, m, true)];
      var txSubs := subs[sub := subs[sub].(server := server, status := Active)];
      var txServers := AddCount(servers, server, 1);
      txServers := DropCount(txServers, oldServer);
      subs, configs, keys, servers := txSubs, txConfigs, txKeys, txServers;
      ok := true;
    }

    /** SELECT COALESCE(max(version), 0) + 1 */
    method NextVersion(sub: nat) returns (version: nat)
      ensures version == MaxVersion(configs, sub) + 1
    {
      version := 0;
      for i := 0 to |configs|
        invariant version == MaxVersion(configs[..i], sub)
      {
        assert configs[..i + 1][..i] == configs[..i];
        if configs[i].sub == sub && configs[i].version > version {
          version := configs[i].version;
        }
      }
      assert configs[..|configs|] == configs;
      version := version + 1;
    }

    /** SoftDelete by the owner; scan is the order in which the database returns the key rows. */
    method SoftDelete(user: nat, sub: nat, scan: seq<nat>) returns (d: Option<Deletion>)
      requires Deletable(Tables(), user, sub) ==> IsScan(Tables(), sub, scan)
      modifies this
      ensures if Deletable(old(Tables()), user, sub) then
                && Tables() == VpnTables.SoftDelete(old(Tables()), sub)
                && (forall i :: 0 <= i < |scan| ==> scan[i] < |old(keys)|)
                && d == Some(Deletion(old(subs)[sub].server, old(subs)[sub].protocol, Picked(old(keys), scan)))
              else d.None? && Tables() == old(Tables())
      ensures d.Some? <==> sub < |old(subs)| && old(subs)[sub].user == user && old(subs)[sub].status != Deleted
                           && old(subs)[sub].server < |old(servers)|
      ensures d.Some? && scan != [] ==>
                && (forall k :: 0 <= k < |scan| ==> scan[k] < |old(keys)|)
                && exists i :: && 0 <= i < |scan| && d.value.picked == old(keys)[scan[i]].material
                               && (forall k :: 0 <= k < i ==> old(keys)[scan[k]].material.publicKey.None?)
                               && (old(keys)[scan[i]].material.publicKey.Some? || i == |scan| - 1)
    {
      if sub >= |subs| || subs[sub].user != user || subs[sub].status == Deleted || subs[sub].server >= |servers| {
        return None;
      }
      assert forall i :: 0 <= i < |scan| ==> KeyOf(Tables(), scan[i], sub);
      var picked := Material(None, None, None);
      for i := 0 to |scan|
        invariant picked == Picked(keys, scan[..i])
      {
        assert scan[..i + 1][..i] == scan[..i];
        if picked.publicKey.None? {
          picked := keys[scan[i]].material;
        }
      }
      assert scan[..|scan|] == scan;
      if scan != [] {
        ghost var i := PickedMeans(keys, scan);
      }
      var server := subs[sub].server;
      d := Some(Deletion(server, subs[sub].protocol, picked));
      keys := Revoke(keys, configs, sub);
      subs := subs[sub := subs[sub].(status := Deleted)];
      servers := DropCount(servers, server);
    }

    /** ListUsedIPs: the addresses of the active keys of a server, as text. */
    method ListUsedIPs(server: nat) returns (ips: seq<string>)
      ensures TakenSet(ips) == AddressesUsed(keys, server)
      ensures forall a: u32 ::
                IsTaken(ips, a)
                <==> exists i :: 0 <= i < |keys| && keys[i].active && keys[i].server == server
                                 && keys[i].material.ip == Some(a)
    {
      hide IpString, TakenSet;
      ips := [];
      NoneTaken();
      for i := 0 to |keys|
        invariant forall a: u32 :: a in TakenSet(ips) <==> AddressUsed(keys[..i], server, a)
      {
        AddressesGrow(keys, i, server);
        if keys[i].server == server && keys[i].active && keys[i].material.ip.Some? {
          AllocatedIsTaken(ips, keys[i].material.ip.value);
          ips := ips + [IpString(keys[i].material.ip.value)];
        }
      }
      assert keys[..|keys|] == keys;
      TakenAreWords(ips);
      forall a: u32 ensures IsTaken(ips, a) <==> AddressUsed(keys, server, a) {
        TakenMeans(ips, a);
      }
    }

    /** OldKeyForSub: the newest active key of a subscription. */
    method OldKeyForSub(sub: nat) returns (k: Option<nat>)
      ensures match k
              case None => forall i: nat :: !ActiveKeyOf(Tables(), i, sub)
              case Some(i) => ActiveKeyOf(Tables(), i, sub)
                              && forall j: nat :: ActiveKeyOf(Tables(), j, sub) ==> j <= i
      ensures k.Some? ==>
                && k.value < |keys| && keys[k.value].active && keys[k.value].config < |configs|
                && configs[keys[k.value].config].sub == sub
      ensures forall j ::
                && 0 <= j < |keys| && keys[j].active && keys[j].config < |configs|
                && configs[keys[j].config].sub == sub ==>
                  k.Some? && j <= k.value
    {
      var i := |keys|;
      while i > 0
        invariant 0 <= i <= |keys|
        invariant forall j: nat :: i <= j ==> !ActiveKeyOf(Tables(), j, sub)
      {
        i := i - 1;
        if keys[i].active && KeyOf(Tables(), i, sub) {
          assert forall j: nat {:trigger keys[j]} :: i < j < |keys| ==> !ActiveKeyOf(Tables(), j, sub);
          return Some(i);
        }
      }
      assert forall j: nat {:trigger keys[j]} :: j < |keys| ==> !ActiveKeyOf(Tables(), j, sub);
      return None;
    }

    /** ActiveSubsOnServer: every subscription with status active on the server, each once. */
    method ActiveSubsOnServer(server: nat) returns (found: seq<nat>)
      ensures forall s: nat :: s in found <==> s < |subs| && subs[s].server == server && subs[s].status == Active
      ensures forall i, j :: 0 <= i < j < |found| ==> found[i] < found[j]
    {
      found := [];
      for i := 0 to |subs|
        invariant forall s: nat :: s in found <==> s < i && subs[s].server == server && subs[s].status == Active
        invariant forall a, b :: 0 <= a < b < |found| ==> found[a] < found[b]
      {
        if subs[i].server == server && subs[i].status == Active {
          assert forall a :: 0 <= a < |found| ==> found[a] in found;
          found := found + [i];
        }
      }
    }

    /**
     * SelectServer and SelectReserveServer: of the serving servers of the country that have the columns for the
     * protocol and are not excluded, one with the wanted reserve flag if there is any, of those one of the least
     * priority, and of those one with the fewest clients.
     */
    method SelectServer(country: nat, protocol: Protocol, reserveFirst: bool, exclude: Option<nat>)
      returns (best: Option<nat>)
      ensures match best
              case None => forall s :: 0 <= s < |servers| ==> !Candidate(servers, s, country, protocol, exclude)
              case Some(b) => IsBest(servers, b, country, protocol, reserveFirst, exclude)
      ensures var fits := (k: nat, s: Server) =>
                && s.country == country && s.status == Serving && exclude != Some(k)
                && (protocol == WireGuard ==> {WgPort, WgPublicKey} <= s.columns && s.subnet.Some?)
                && (protocol == VlessReality ==> {RealityPort, RealityPublicKey} <= s.columns)
                && (protocol == Shadowsocks ==> {SsPort, SsServerKey} <= s.columns)
                && (protocol == Trojan ==> {TrojanPort, RealityPublicKey} <= s.columns);
              match best
              case None => forall k: nat :: k < |servers| ==> !fits(k, servers[k])
              case Some(b) =>
                && b < |servers| && fits(b, servers[b])
                && forall k: nat :: k < |servers| && fits(k, servers[k]) ==>
                     if servers[k].reserve != servers[b].reserve then servers[b].reserve == reserveFirst
                     else if servers[k].priority != servers[b].priority then servers[b].priority < servers[k].priority
                     else servers[b].clientCount <= servers[k].clientCount
    {
      best := None;
      for i := 0 to |servers|
        invariant best.None? ==> forall s :: 0 <= s < i ==> !Candidate(servers, s, country, protocol, exclude)
        invariant best.Some? ==> best.value < i && Candidate(servers, best.value, country, protocol, exclude)
        invariant best.Some? ==>
                    forall s :: 0 <= s < i && Candidate(servers, s, country, protocol, exclude) ==>
                                  !Preferred(servers[s], servers[best.value], reserveFirst)
      {
        if Candidate(servers, i, country, protocol, exclude) {
          if best.None? || Preferred(servers[i], servers[best.value], reserveFirst) {
            best := Some(i);
          }
        }
      }
      assert best.None? ==> forall k: nat {:trigger servers[k]} ::
                              k < |servers| ==> !Candidate(servers, k, country, protocol, exclude);
    }
  }

  /** The WHERE clause of the server queries. */
  predicate Candidate(servers: seq<Server>, s: nat, country: nat, protocol: Protocol, exclude: Option<nat>)
    requires s < |servers|
  {
    && servers[s].country == country && servers[s].status == Serving
    && exclude != Some(s) && Selectable(servers[s], protocol)
  }

  /** The ORDER BY clause: reserve, then priority, then client_count. */
  predicate Preferred(a: Server, b: Server, reserveFirst: bool) {
    if a.reserve != b.reserve then a.reserve == reserveFirst
    else if a.priority != b.priority then a.priority < b.priority
    else a.clientCount < b.clientCount
  }

  /** A candidate to which no other candidate is preferred. */
  predicate IsBest(servers: seq<Server>, b: nat, country: nat, protocol: Protocol, reserveFirst: bool,
                   exclude: Option<nat>)
  {
    && b < |servers| && Candidate(servers, b, country, protocol, exclude)
    && forall s :: 0 <= s < |servers| && Candidate(servers, s, country, protocol, exclude) ==>
                     !Preferred(servers[s], servers[b], reserveFirst)
  }

  /** What it means to be the best one, in terms of the columns of the rows. */
  lemma BestMeans(servers: seq<Server>, b: nat, country: nat, protocol: Protocol, reserveFirst: bool,
                  exclude: Option<nat>)
    requires IsBest(servers, b, country, protocol, reserveFirst, exclude)
    ensures var fits := (k: nat, s: Server) =>
              && s.country == country && s.status == Serving && exclude != Some(k)
              && (protocol == WireGuard ==> {WgPort, WgPublicKey} <= s.columns && s.subnet.Some?)
              && (protocol == VlessReality ==> {RealityPort, RealityPublicKey} <= s.columns)
              && (protocol == Shadowsocks ==> {SsPort, SsServerKey} <= s.columns)
              && (protocol == Trojan ==> {TrojanPort, RealityPublicKey} <= s.columns);
            && b < |servers| && fits(b, servers[b])
            && forall k: nat :: k < |servers| && fits(k, servers[k]) ==>
                 if servers[k].reserve != servers[b].reserve then servers[b].reserve == reserveFirst
                 else if servers[k].priority != servers[b].priority then servers[b].priority < servers[k].priority
                 else servers[b].clientCount <= servers[k].clientCount
  {
    assert forall k: nat {:trigger servers[k]} :: k < |servers| && Candidate(servers, k, country, protocol, exclude) ==>
             !Preferred(servers[k], servers[b], reserveFirst);
  }

  lemma AddressesGrow(keys: seq<Key>, i: nat, server: nat)
    requires i < |keys|
    ensures forall a: u32 ::
              AddressUsed(keys[..i + 1], server, a)
              <==> AddressUsed(keys[..i], server, a)
                   || (keys[i].active && keys[i].server == server && keys[i].material.ip == Some(a))
  {
    forall a: u32
      ensures AddressUsed(keys[..i + 1], server, a)
              <==> AddressUsed(keys[..i], server, a)
                   || (keys[i].active && keys[i].server == server && keys[i].material.ip == Some(a))
    {
      var more, less := keys[..i + 1], keys[..i];
      if AddressUsed(more, server, a) {
        var k :| 0 <= k < |more| && more[k].active && more[k].server == server && more[k].material.ip == Some(a);
        assert k < i ==> less[k] == more[k];
      }
      if AddressUsed(less, server, a) {
        var k :| 0 <= k < |less| && less[k].active && less[k].server == server && less[k].material.ip == Some(a);
        assert more[k] == less[k];
      }
      assert more[i] == keys[i];
    }
  }

  lemma TakenMeans(used: seq<string>, a: u32)
    ensures a in TakenSet(used) <==> IsTaken(used, a)
  {
  }

  lemma TakenAreWords(used: seq<string>)
    ensures forall a :: a in TakenSet(used) ==> 0 <= a < TWO_32
  {
  }
}

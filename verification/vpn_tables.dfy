/** The tables of the VPN database, and each transaction as a function from tables to tables. */
module VpnTables {
  import opened Words
  import opened Text
  import opened Cidr
  import opened Allocator
  import opened Subscriptions

  // A row is identified by its position in its table, so identifiers are never reused.

  datatype ServerStatus = Provisioning | Serving | Drain | Offline | Archived

  /** The nullable columns that selection and generation look at. */
  datatype Column =
    | WgPort | WgPublicKey | RealityPort | RealityPublicKey | RealitySni | SsPort | SsServerKey | SsMethod | TrojanPort

  /** subnet is the WireGuard subnet, columns the other columns that are not null. */
  datatype Server = Server(
    country: nat, status: ServerStatus, reserve: bool, priority: int, clientCount: int,
    subnet: Option<Prefix>, columns: set<Column>)

  datatype Config = Config(sub: nat, version: nat)

  /** Key material; the credential is the public key for WireGuard and the client uuid otherwise. */
  datatype Material = Material(publicKey: Option<nat>, clientUuid: Option<nat>, ip: Option<u32>)

  datatype Key = Key(config: nat, server: nat, material: Material, active: bool)

  datatype Db = Db(servers: seq<Server>, subs: seq<Sub>, configs: seq<Config>, keys: seq<Key>)

  datatype NewSub = NewSub(user: nat, country: nat, protocol: Protocol, expiresAt: int)

  /** What the selection of a server asks of its columns. */
  predicate Selectable(s: Server, protocol: Protocol) {
    match protocol
    case WireGuard => WgPort in s.columns && WgPublicKey in s.columns && s.subnet.Some?
    case VlessReality => RealityPort in s.columns && RealityPublicKey in s.columns
    case Shadowsocks => SsPort in s.columns && SsServerKey in s.columns
    case Trojan => TrojanPort in s.columns && RealityPublicKey in s.columns
  }

  /** What the generation of material asks of them. */
  predicate Configured(s: Server, protocol: Protocol) {
    match protocol
    case WireGuard => WgPublicKey in s.columns && s.subnet.Some? && WgPort in s.columns
    case VlessReality => RealityPublicKey in s.columns && RealityPort in s.columns && RealitySni in s.columns
    case Shadowsocks => SsPort in s.columns && SsMethod in s.columns && SsServerKey in s.columns
    case Trojan => TrojanPort in s.columns && RealityPublicKey in s.columns && RealitySni in s.columns
  }

  /** A server that was selected turns out not to be configured exactly when one column is null. */
  lemma SelectedNotConfigured(s: Server, protocol: Protocol)
    requires Selectable(s, protocol)
    ensures !Configured(s, protocol)
            <==> || (protocol in {VlessReality, Trojan} && RealitySni !in s.columns)
                 || (protocol == Shadowsocks && SsMethod !in s.columns)
  {
    match protocol
    case WireGuard =>
    case VlessReality =>
    case Shadowsocks =>
    case Trojan =>
  }

  // Statements

  /** The partial unique index on server and address of active keys. */
  predicate AddressFree(keys: seq<Key>, server: nat, ip: Option<u32>) {
    ip.Some? ==> forall i :: 0 <= i < |keys| && keys[i].active && keys[i].server == server ==> keys[i].material.ip != ip
  }

  /** UPDATE vpn_keys SET status = 'revoked' for all configs of a subscription. */
  function Revoke(keys: seq<Key>, configs: seq<Config>, sub: nat): (r: seq<Key>)
    ensures |r| == |keys|
  {
    seq(|keys|, i requires 0 <= i < |keys| =>
      if keys[i].config < |configs| && configs[keys[i].config].sub == sub then keys[i].(active := false) else keys[i])
  }

  /** COALESCE(max(version), 0) over the configs of a subscription. */
  function MaxVersion(configs: seq<Config>, sub: nat): nat {
    if configs == [] then 0
    else
      var rest := MaxVersion(configs[..|configs| - 1], sub);
      var c := configs[|configs| - 1];
      if c.sub == sub && c.version > rest then c.version else rest
  }

  function AddCount(servers: seq<Server>, server: nat, delta: int): (r: seq<Server>)
    requires server < |servers|
    ensures |r| == |servers|
  {
    servers[server := servers[server].(clientCount := servers[server].clientCount + delta)]
  }

  /** client_count = GREATEST(client_count - 1, 0) */
  function DropCount(servers: seq<Server>, server: nat): (r: seq<Server>)
    requires server < |servers|
    ensures |r| == |servers|
  {
    AddCount(servers, server, if servers[server].clientCount > 0 then -1 else -servers[server].clientCount)
  }

  // Transactions; None stands for a statement that fails and rolls everything back.

  function Persist(db: Db, p: NewSub, server: nat, m: Material): Option<Db> {
    if server >= |db.servers| || !AddressFree(db.keys, server, m.ip) then None
    else
      Some(Db(
        AddCount(db.servers, server, 1),
        db.subs + [Sub(p.user, server, p.country, p.protocol, Active, p.expiresAt)],
        db.configs + [Config(|db.subs|, 1)],
        db.keys + [Key(|db.configs|, server, m, true)]))
  }

  function Reassign(db: Db, sub: nat, oldServer: nat, server: nat, m: Material): Option<Db> {
    var revoked := Revoke(db.keys, db.configs, sub);
    if sub >= |db.subs| || server >= |db.servers| || oldServer >= |db.servers|
       || !AddressFree(revoked, server, m.ip) then None
    else
      Some(Db(
        DropCount(AddCount(db.servers, server, 1), oldServer),
        db.subs[sub := db.subs[sub].(server := server, status := Active)],
        db.configs + [Config(sub, MaxVersion(db.configs, sub) + 1)],
        revoked + [Key(|db.configs|, server, m, true)]))
  }

  predicate Deletable(db: Db, user: nat, sub: nat) {
    sub < |db.subs| && db.subs[sub].user == user && db.subs[sub].status != Deleted && db.subs[sub].server < |db.servers|
  }

  function SoftDelete(db: Db, sub: nat): Db
    requires sub < |db.subs| && db.subs[sub].server < |db.servers|
  {
    Db(
      DropCount(db.servers, db.subs[sub].server),
      db.subs[sub := db.subs[sub].(status := Deleted)],
      db.configs,
      Revoke(db.keys, db.configs, sub))
  }

  /** The key material that a deletion picks while it reads the key rows in the order of the scan. */
  function Picked(keys: seq<Key>, scan: seq<nat>): Material
    requires forall i :: 0 <= i < |scan| ==> scan[i] < |keys|
  {
    if scan == [] then Material(None, None, None)
    else
      var before := Picked(keys, scan[..|scan| - 1]);
      if before.publicKey.None? then keys[scan[|scan| - 1]].material else before
  }

  /** What is picked is the first row with a public key, or the last row if none has one. */
  lemma {:induction false} PickedMeans(keys: seq<Key>, scan: seq<nat>) returns (i: nat)
    requires scan != [] && forall k :: 0 <= k < |scan| ==> scan[k] < |keys|
    ensures i < |scan| && Picked(keys, scan) == keys[scan[i]].material
    ensures forall k :: 0 <= k < i ==> keys[scan[k]].material.publicKey.None?
    ensures keys[scan[i]].material.publicKey.Some? || i == |scan| - 1
  {
    var init := scan[..|scan| - 1];
    i := |scan| - 1;
    if init != [] {
      var j := PickedMeans(keys, init);
      if Picked(keys, init).publicKey.Some? {
        i := j;
      }
    }
  }

  /** The scan lists the key rows of a subscription, each once, in any order. */
  ghost predicate IsScan(db: Db, sub: nat, scan: seq<nat>) {
    && (forall i :: 0 <= i < |scan| ==> KeyOf(db, scan[i], sub))
    && (forall k :: KeyOf(db, k, sub) ==> k in scan)
    && (forall i, j :: 0 <= i < j < |scan| ==> scan[i] != scan[j])
  }

  predicate KeyOf(db: Db, k: nat, sub: nat) {
    k < |db.keys| && db.keys[k].config < |db.configs| && db.configs[db.keys[k].config].sub == sub
  }

  /** The credential that a removal call names for a protocol, if the material has one. */
  function RemovalTarget(protocol: Protocol, m: Material): Option<nat> {
    if protocol == WireGuard then m.publicKey else m.clientUuid
  }

  /** The addresses of the active keys of a server. */
  ghost predicate AddressUsed(keys: seq<Key>, server: nat, a: u32) {
    exists i :: 0 <= i < |keys| && keys[i].active && keys[i].server == server && keys[i].material.ip == Some(a)
  }

  ghost function AddressesUsed(keys: seq<Key>, server: nat): iset<int> {
    iset a: u32 | AddressUsed(keys, server, a)
  }

  // What every transaction keeps

  function NumConfigs(configs: seq<Config>, sub: nat): nat {
    if configs == [] then 0
    else
      NumConfigs(configs[..|configs| - 1], sub) + if configs[|configs| - 1].sub == sub then 1 else 0
  }

  /** Rows refer to rows, and every config has exactly one key, in the row of the same position. */
  ghost predicate Linked(db: Db) {
    && |db.keys| == |db.configs|
    && (forall i :: 0 <= i < |db.keys| ==> db.keys[i].config == i && db.keys[i].server < |db.servers|)
    && (forall i :: 0 <= i < |db.configs| ==> db.configs[i].sub < |db.subs|)
    && (forall s :: 0 <= s < |db.subs| ==> db.subs[s].server < |db.servers|)
  }

  /** The version of a config is its rank among the configs of its subscription. */
  ghost predicate Ranked(configs: seq<Config>) {
    forall i :: 0 <= i < |configs| ==> configs[i].version == NumConfigs(configs[..i], configs[i].sub) + 1
  }

  /** A key is active exactly when it belongs to the last config of a subscription that is not deleted. */
  ghost predicate LastIsLive(db: Db)
    requires Linked(db)
  {
    forall i :: 0 <= i < |db.keys| ==>
      && (db.keys[i].active <==> LiveConfig(db, i))
      && (db.keys[i].active ==> db.keys[i].server == db.subs[db.configs[i].sub].server)
  }

  predicate LiveConfig(db: Db, i: nat)
    requires Linked(db) && i < |db.configs|
  {
    && db.subs[db.configs[i].sub].status != Deleted
    && db.configs[i].version == NumConfigs(db.configs, db.configs[i].sub)
  }

  ghost predicate Consistent(db: Db) {
    && Linked(db) && Ranked(db.configs) && LastIsLive(db)
    && forall s :: 0 <= s < |db.subs| ==> NumConfigs(db.configs, s) >= 1
  }

  lemma {:induction false} RankedMax(configs: seq<Config>, sub: nat)
    requires Ranked(configs)
    ensures MaxVersion(configs, sub) == NumConfigs(configs, sub)
  {
    if configs != [] {
      var init := configs[..|configs| - 1];
      assert forall i :: 0 <= i < |init| ==> init[..i] == configs[..i];
      RankedMax(init, sub);
    }
  }

  lemma NumConfigsAppend(configs: seq<Config>, c: Config, sub: nat)
    ensures NumConfigs(configs + [c], sub) == NumConfigs(configs, sub) + if c.sub == sub then 1 else 0
  {
    var all := configs + [c];
    assert all[..|all| - 1] == configs;
  }

  lemma {:induction false} NumConfigsPrefix(configs: seq<Config>, i: nat, sub: nat)
    requires i <= |configs|
    ensures NumConfigs(configs[..i], sub) <= NumConfigs(configs, sub)
    decreases |configs|
  {
    if i < |configs| {
      var init := configs[..|configs| - 1];
      NumConfigsPrefix(init, i, sub);
      assert init[..i] == configs[..i];
    } else {
      assert configs[..i] == configs;
    }
  }

  lemma {:induction false} NoConfigsYet(configs: seq<Config>, sub: nat)
    requires forall i :: 0 <= i < |configs| ==> configs[i].sub < sub
    ensures NumConfigs(configs, sub) == 0
  {
    if configs != [] {
      NoConfigsYet(configs[..|configs| - 1], sub);
    }
  }

  lemma RankedAppend(configs: seq<Config>, c: Config)
    requires Ranked(configs) && c.version == NumConfigs(configs, c.sub) + 1
    ensures Ranked(configs + [c])
  {
    var all := configs + [c];
    forall i | 0 <= i < |all| ensures all[i].version == NumConfigs(all[..i], all[i].sub) + 1 {
      assert all[..i] == configs[..i];
      assert configs[..|configs|] == configs;
    }
  }

  lemma VersionBound(configs: seq<Config>, i: nat)
    requires Ranked(configs) && i < |configs|
    ensures configs[i].version <= NumConfigs(configs, configs[i].sub)
  {
    NumConfigsPrefix(configs, i + 1, configs[i].sub);
    NumConfigsAppend(configs[..i], configs[i], configs[i].sub);
    assert configs[..i + 1] == configs[..i] + [configs[i]];
  }

  /** Every old key keeps its row, its server and its config; c is the config row added, if any. */
  ghost predicate OldRowsKept(db: Db, db': Db) {
    && |db.keys| <= |db'.keys| && |db.subs| <= |db'.subs| && |db.configs| <= |db'.configs|
    && |db'.servers| == |db.servers|
    && (forall i :: 0 <= i < |db.configs| ==> db'.configs[i] == db.configs[i])
    && (forall i :: 0 <= i < |db.keys| ==> db'.keys[i].(active := db.keys[i].active) == db.keys[i])
  }

  lemma RevokedStaysOff(keys: seq<Key>, configs: seq<Config>, sub: nat, i: nat)
    requires i < |keys| && keys[i].config < |configs|
    ensures Revoke(keys, configs, sub)[i]
            == if configs[keys[i].config].sub == sub then keys[i].(active := false) else keys[i]
  {
  }

  /** The subscription gets one more config whose key is its only active one. */
  ghost predicate ConfigAdded(db: Db, db': Db, sub: nat)
    requires Linked(db)
  {
    && sub <= |db.subs| && |db'.servers| == |db.servers|
    && db'.configs == db.configs + [Config(sub, NumConfigs(db.configs, sub) + 1)]
    && |db'.keys| == |db.keys| + 1
    && (forall i :: 0 <= i < |db.keys| ==> db'.keys[i] == AfterRevoke(db, sub, i))
    && db'.keys[|db.keys|].config == |db.configs| && db'.keys[|db.keys|].active
    && db'.keys[|db.keys|].server < |db.servers|
    && |db'.subs| == (if sub < |db.subs| then |db.subs| else sub + 1)
    && (forall s :: 0 <= s < |db.subs| && s != sub ==> db'.subs[s] == db.subs[s])
    && db'.subs[sub].status != Deleted && db'.subs[sub].server == db'.keys[|db.keys|].server
  }

  function AfterRevoke(db: Db, sub: nat, i: nat): Key
    requires Linked(db) && i < |db.keys|
  {
    if db.configs[i].sub == sub then db.keys[i].(active := false) else db.keys[i]
  }

  lemma ConfigAddedNumbers(db: Db, db': Db, sub: nat)
    requires Consistent(db) && ConfigAdded(db, db', sub)
    ensures Ranked(db'.configs)
    ensures forall s: nat ::
              NumConfigs(db'.configs, s) == NumConfigs(db.configs, s) + if s == sub then 1 else 0
    ensures forall s :: 0 <= s < |db'.subs| ==> NumConfigs(db'.configs, s) >= 1
  {
    var c := Config(sub, NumConfigs(db.configs, sub) + 1);
    RankedAppend(db.configs, c);
    forall s: nat ensures NumConfigs(db'.configs, s) == NumConfigs(db.configs, s) + if s == sub then 1 else 0 {
      NumConfigsAppend(db.configs, c, s);
    }
  }

  lemma ConfigAddedLinked(db: Db, db': Db, sub: nat)
    requires Consistent(db) && ConfigAdded(db, db', sub)
    ensures Linked(db') && OldRowsKept(db, db')
  {
    hide NumConfigs, Ranked;
  }

  lemma ConfigAddedLive(db: Db, db': Db, sub: nat, i: nat)
    requires Consistent(db) && ConfigAdded(db, db', sub) && Linked(db') && i < |db'.keys|
    ensures db'.keys[i].active <==> LiveConfig(db', i)
    ensures db'.keys[i].active ==> db'.keys[i].server == db'.subs[db'.configs[i].sub].server
  {
    ConfigAddedNumbers(db, db', sub);
    if i < |db.keys| {
      VersionBound(db.configs, i);
      hide NumConfigs, Ranked;
      assert db.keys[i].active <==> LiveConfig(db, i);
    }
  }

  lemma ConfigAddedKeeps(db: Db, db': Db, sub: nat)
    requires Consistent(db) && ConfigAdded(db, db', sub)
    ensures Consistent(db') && OldRowsKept(db, db')
  {
    hide NumConfigs, Ranked, LiveConfig, OldRowsKept, ConfigAdded;
    ConfigAddedNumbers(db, db', sub);
    ConfigAddedLinked(db, db', sub);
    forall i | 0 <= i < |db'.keys|
      ensures db'.keys[i].active <==> LiveConfig(db', i)
      ensures db'.keys[i].active ==> db'.keys[i].server == db'.subs[db'.configs[i].sub].server
    {
      ConfigAddedLive(db, db', sub, i);
    }
  }

  lemma PersistKeeps(db: Db, p: NewSub, server: nat, m: Material)
    requires Consistent(db) && Persist(db, p, server, m).Some?
    ensures ConfigAdded(db, Persist(db, p, server, m).value, |db.subs|)
    ensures Consistent(Persist(db, p, server, m).value)
    ensures OldRowsKept(db, Persist(db, p, server, m).value)
  {
    NoConfigsYet(db.configs, |db.subs|);
    ConfigAddedKeeps(db, Persist(db, p, server, m).value, |db.subs|);
  }

  lemma ReassignKeeps(db: Db, sub: nat, oldServer: nat, server: nat, m: Material)
    requires Consistent(db) && Reassign(db, sub, oldServer, server, m).Some?
    ensures ConfigAdded(db, Reassign(db, sub, oldServer, server, m).value, sub)
    ensures Consistent(Reassign(db, sub, oldServer, server, m).value)
    ensures OldRowsKept(db, Reassign(db, sub, oldServer, server, m).value)
  {
    RankedMax(db.configs, sub);
    ConfigAddedKeeps(db, Reassign(db, sub, oldServer, server, m).value, sub);
  }

  lemma SoftDeleteRows(db: Db, sub: nat)
    requires Consistent(db) && sub < |db.subs|
    ensures var db' := SoftDelete(db, sub);
            && Linked(db') && OldRowsKept(db, db') && |db'.keys| == |db.keys|
            && forall i :: 0 <= i < |db.keys| ==> db'.keys[i] == AfterRevoke(db, sub, i)
  {
    hide NumConfigs, Ranked, LastIsLive;
    forall i | 0 <= i < |db.keys| ensures Revoke(db.keys, db.configs, sub)[i] == AfterRevoke(db, sub, i) {
      RevokedStaysOff(db.keys, db.configs, sub, i);
    }
  }

  lemma SoftDeleteKeeps(db: Db, sub: nat)
    requires Consistent(db) && sub < |db.subs|
    ensures Consistent(SoftDelete(db, sub))
    ensures OldRowsKept(db, SoftDelete(db, sub))
  {
    SoftDeleteRows(db, sub);
    var db' := SoftDelete(db, sub);
    hide NumConfigs, Ranked, Revoke, OldRowsKept;
    forall i | 0 <= i < |db.keys|
      ensures db'.keys[i].active <==> LiveConfig(db', i)
      ensures db'.keys[i].active ==> db'.keys[i].server == db'.subs[db'.configs[i].sub].server
    {
      assert db.keys[i].active <==> LiveConfig(db, i);
    }
  }

  // One live credential

  /** The config with a given version: the one whose rank it is. */
  lemma {:induction false} ConfigAtRank(configs: seq<Config>, sub: nat, v: nat) returns (i: nat)
    requires Ranked(configs) && 1 <= v <= NumConfigs(configs, sub)
    ensures i < |configs| && configs[i].sub == sub && configs[i].version == v
  {
    var init := configs[..|configs| - 1];
    assert forall i :: 0 <= i < |init| ==> init[..i] == configs[..i];
    if v <= NumConfigs(init, sub) {
      i := ConfigAtRank(init, sub, v);
    } else {
      i := |configs| - 1;
    }
  }

  lemma RanksDiffer(configs: seq<Config>, i: nat, j: nat)
    requires Ranked(configs) && i < j < |configs| && configs[i].sub == configs[j].sub
    ensures configs[i].version < configs[j].version
  {
    assert configs[..j][..i] == configs[..i];
    assert forall k :: 0 <= k < j ==> configs[..j][..k] == configs[..k];
    VersionBound(configs[..j], i);
  }

  /** The versions of a subscription are exactly 1 to n, each borne by one config, and n is the greatest. */
  lemma VersionsAreRanks(db: Db, sub: nat, v: nat)
    requires Consistent(db)
    ensures 1 <= v <= NumConfigs(db.configs, sub)
            <==> exists i :: 0 <= i < |db.configs| && db.configs[i].sub == sub && db.configs[i].version == v
    ensures forall i, j :: 0 <= i < j < |db.configs| && db.configs[i].sub == db.configs[j].sub ==>
                             db.configs[i].version < db.configs[j].version
    ensures MaxVersion(db.configs, sub) == NumConfigs(db.configs, sub)
  {
    RankedMax(db.configs, sub);
    if 1 <= v <= NumConfigs(db.configs, sub) {
      var i := ConfigAtRank(db.configs, sub, v);
    }
    forall i | 0 <= i < |db.configs| ensures 1 <= db.configs[i].version <= NumConfigs(db.configs, db.configs[i].sub) {
      VersionBound(db.configs, i);
    }
    forall i, j | 0 <= i < j < |db.configs| && db.configs[i].sub == db.configs[j].sub
      ensures db.configs[i].version < db.configs[j].version
    {
      RanksDiffer(db.configs, i, j);
    }
  }

  ghost predicate ActiveKeyOf(db: Db, i: nat, sub: nat) {
    KeyOf(db, i, sub) && db.keys[i].active
  }

  /** A subscription that is not deleted has one active key, on its server and of its newest config. */
  lemma OneLiveCredential(db: Db, sub: nat) returns (live: nat)
    requires Consistent(db) && sub < |db.subs|
    ensures db.subs[sub].status != Deleted ==>
              && ActiveKeyOf(db, live, sub)
              && db.keys[live].server == db.subs[sub].server
              && db.configs[db.keys[live].config].version == MaxVersion(db.configs, sub)
              && (forall i :: ActiveKeyOf(db, i, sub) ==> i == live)
    ensures db.subs[sub].status == Deleted ==> forall i :: !ActiveKeyOf(db, i, sub)
  {
    RankedMax(db.configs, sub);
    live := ConfigAtRank(db.configs, sub, NumConfigs(db.configs, sub));
    assert db.keys[live].active <==> LiveConfig(db, live);
    forall i: nat | ActiveKeyOf(db, i, sub) ensures db.subs[sub].status != Deleted && i == live {
      assert db.keys[i].active <==> LiveConfig(db, i);
      if i < live {
        RanksDiffer(db.configs, i, live);
      } else if live < i {
        RanksDiffer(db.configs, live, i);
      }
    }
  }

  /** GetArtifactForUser and ListUserVPNs serve the config with the highest version; its key is the live one. */
  lemma ServedConfigIsLive(db: Db, sub: nat, served: nat)
    requires Consistent(db) && sub < |db.subs| && db.subs[sub].status != Deleted
    requires served < |db.configs| && db.configs[served].sub == sub
    requires forall i :: 0 <= i < |db.configs| && db.configs[i].sub == sub ==>
                           db.configs[i].version <= db.configs[served].version
    ensures forall i :: ActiveKeyOf(db, i, sub) <==> i == served
  {
    var live := OneLiveCredential(db, sub);
    RankedMax(db.configs, sub);
    VersionBound(db.configs, served);
    if served < live {
      RanksDiffer(db.configs, served, live);
    } else if live < served {
      RanksDiffer(db.configs, live, served);
    }
  }

  // Addresses

  /** No two active keys of a server hold the same address. */
  ghost predicate AddressesDistinct(keys: seq<Key>) {
    forall i, j ::
      0 <= i < j < |keys| && keys[i].active && keys[j].active && keys[i].server == keys[j].server ==>
        keys[i].material.ip.None? || keys[i].material.ip != keys[j].material.ip
  }

  predicate AddressInSubnet(servers: seq<Server>, server: nat, ip: Option<u32>) {
    ip.Some? ==>
      server < |servers| && servers[server].subnet.Some? && ValidPrefix(servers[server].subnet.value)
      && IsHost(servers[server].subnet.value, ip.value)
  }

  ghost predicate AddressesInSubnets(db: Db) {
    forall i :: 0 <= i < |db.keys| ==> AddressInSubnet(db.servers, db.keys[i].server, db.keys[i].material.ip)
  }

  ghost predicate AddressesSafe(db: Db) {
    AddressesDistinct(db.keys) && AddressesInSubnets(db)
  }

  /** Server rows change only their client counts in the transactions, and their status by hand. */
  ghost predicate SameServers(servers: seq<Server>, servers': seq<Server>) {
    |servers| == |servers'|
    && forall s :: 0 <= s < |servers| ==>
                     servers'[s] == servers[s].(status := servers'[s].status, clientCount := servers'[s].clientCount)
  }

  lemma DistinctAfterInsert(keys: seq<Key>, k: Key)
    requires AddressesDistinct(keys) && AddressFree(keys, k.server, k.material.ip)
    ensures AddressesDistinct(keys + [k])
  {
  }

  lemma DistinctAfterRevoke(keys: seq<Key>, configs: seq<Config>, sub: nat)
    requires AddressesDistinct(keys)
    ensures AddressesDistinct(Revoke(keys, configs, sub))
  {
  }

  lemma PersistAddresses(db: Db, p: NewSub, server: nat, m: Material)
    requires AddressesSafe(db) && AddressInSubnet(db.servers, server, m.ip)
    requires Persist(db, p, server, m).Some?
    ensures AddressesSafe(Persist(db, p, server, m).value)
    ensures SameServers(db.servers, Persist(db, p, server, m).value.servers)
  {
    DistinctAfterInsert(db.keys, Key(|db.configs|, server, m, true));
  }

  lemma ReassignAddresses(db: Db, sub: nat, oldServer: nat, server: nat, m: Material)
    requires AddressesSafe(db) && AddressInSubnet(db.servers, server, m.ip)
    requires Reassign(db, sub, oldServer, server, m).Some?
    ensures AddressesSafe(Reassign(db, sub, oldServer, server, m).value)
    ensures SameServers(db.servers, Reassign(db, sub, oldServer, server, m).value.servers)
  {
    DistinctAfterRevoke(db.keys, db.configs, sub);
    DistinctAfterInsert(Revoke(db.keys, db.configs, sub), Key(|db.configs|, server, m, true));
  }

  lemma SoftDeleteAddresses(db: Db, sub: nat)
    requires AddressesSafe(db) && sub < |db.subs| && db.subs[sub].server < |db.servers|
    ensures AddressesSafe(SoftDelete(db, sub))
    ensures SameServers(db.servers, SoftDelete(db, sub).servers)
  {
    DistinctAfterRevoke(db.keys, db.configs, sub);
  }

  ghost predicate HoldsAddress(keys: seq<Key>, server: nat, i: nat) {
    i < |keys| && keys[i].active && keys[i].server == server && keys[i].material.ip.Some?
  }

  ghost predicate Holds(keys: seq<Key>, server: nat, i: nat, a: int) {
    HoldsAddress(keys, server, i) && keys[i].material.ip.value == a
  }

  /** A server never has more active keys with an address than its subnet has hosts. */
  lemma ActiveKeysWithinCapacity(db: Db, server: nat, holders: set<nat>)
    requires AddressesSafe(db) && server < |db.servers|
    requires forall i :: i in holders ==> HoldsAddress(db.keys, server, i)
    requires holders != {}
    ensures db.servers[server].subnet.Some? && ValidPrefix(db.servers[server].subnet.value)
    ensures |holders| <= Capacity(db.servers[server].subnet.value)
  {
    var some :| some in holders;
    assert HoldsAddress(db.keys, server, some);
    var addresses := HeldAddresses(db.keys, server, holders);
    forall a | a in addresses ensures IsHost(db.servers[server].subnet.value, a) {
      var i :| i in holders && Holds(db.keys, server, i, a);
    }
    HostsWithinCapacity(db.servers[server].subnet.value, addresses);
  }

  lemma HeldApart(keys: seq<Key>, server: nat, i: nat, j: nat)
    requires AddressesDistinct(keys) && i != j && HoldsAddress(keys, server, i) && HoldsAddress(keys, server, j)
    ensures keys[i].material.ip.value != keys[j].material.ip.value
  {
    assert i < j || j < i;
  }

  /** As many addresses as holders. */
  lemma {:induction false} HeldAddresses(keys: seq<Key>, server: nat, holders: set<nat>) returns (r: set<int>)
    requires AddressesDistinct(keys)
    requires forall i :: i in holders ==> HoldsAddress(keys, server, i)
    ensures |r| == |holders|
    ensures forall a :: a in r ==> exists i :: i in holders && Holds(keys, server, i, a)
  {
    hide AddressesDistinct;
    if holders == {} {
      r := {};
    } else {
      var i :| i in holders;
      assert HoldsAddress(keys, server, i);
      var rest := HeldAddresses(keys, server, holders - {i});
      var a := keys[i].material.ip.value;
      forall b | b in rest ensures b != a {
        var j :| j in holders - {i} && Holds(keys, server, j, b);
        HeldApart(keys, server, i, j);
      }
      assert Holds(keys, server, i, a);
      r := rest + {a};
      forall b | b in r ensures exists j :: j in holders && Holds(keys, server, j, b) {
        if b != a {
          var j :| j in holders - {i} && Holds(keys, server, j, b);
        }
      }
    }
  }
}

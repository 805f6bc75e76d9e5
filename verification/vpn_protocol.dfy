/**
 * Creating, migrating and deleting as protocols over the database and the nodes. Every transaction and
 * every call that a node carries out is one step; the steps of different operations interleave freely,
 * and an operation may stop after any step.
 */
module VpnProtocol {
  import opened Words
  import opened Text
  import opened Cidr
  import opened Allocator
  import opened Subscriptions
  import opened VpnTables
  import opened VpnLoad

  /** Why a credential is being issued; former is the credential to withdraw after a move. */
  datatype Target = Fresh(p: NewSub) | Move(sub: nat, from: nat, former: Option<nat>)

  /** What an operation still has to do. */
  datatype Proc =
    | Issue(target: Target, protocol: Protocol, server: nat, m: Material, provisioned: bool)
    | Remove(server: nat, protocol: Protocol, cred: Option<nat>)
    | Late(server: nat, protocol: Protocol, pending: nat)

  /** The database, the clients installed on nodes, the operations under way, and the next unused credential. */
  datatype World = World(db: Db, installed: set<(nat, Protocol, nat)>, procs: map<nat, Proc>, next: nat)

  datatype Step =
    | BeginCreate(pid: nat, p: NewSub, server: nat)
    | BeginMove(pid: nat, sub: nat, from: nat, server: nat, oldKey: Option<nat>)
    | AddOk(pid: nat)
    | AddFailed(pid: nat)
    | Commit(pid: nat)
    | Refused(pid: nat)
    | Delete(pid: nat, user: nat, sub: nat, scan: seq<nat>)
    | RemoveOk(pid: nat)
    | RemoveFailed(pid: nat)
    | LateAdd(pid: nat)
    | Stop(pid: nat)
    | Expire(sub: nat)
    | Extend(sub: nat, expiresAt: int)
    | SetStatus(server: nat, status: ServerStatus)

  /** The operation that takes a step, if it is a step of one. */
  function Owner(s: Step): Option<nat> {
    match s
    case BeginCreate(pid, _, _) => Some(pid)
    case BeginMove(pid, _, _, _, _) => Some(pid)
    case AddOk(pid) => Some(pid)
    case AddFailed(pid) => Some(pid)
    case Commit(pid) => Some(pid)
    case Refused(pid) => Some(pid)
    case Delete(pid, _, _, _) => Some(pid)
    case RemoveOk(pid) => Some(pid)
    case RemoveFailed(pid) => Some(pid)
    case LateAdd(pid) => Some(pid)
    case Stop(pid) => Some(pid)
    case Expire(_) => None
    case Extend(_, _) => None
    case SetStatus(_, _) => None
  }

  /** The credential of key material: the public key if there is one, else the client uuid. */
  function Cred(m: Material): Option<nat> {
    if m.publicKey.Some? then m.publicKey else m.clientUuid
  }

  /** WireGuard material has a public key, material of the other protocols a client uuid and no address. */
  predicate Shaped(protocol: Protocol, m: Material) {
    if protocol == WireGuard then m.publicKey.Some? && m.clientUuid.None?
    else m.publicKey.None? && m.clientUuid.Some? && m.ip.None?
  }

  /** The material generated for a server, with a credential that was never used before. */
  ghost function Generate(db: Db, server: nat, protocol: Protocol, next: nat): Option<Material> {
    if server >= |db.servers| || !Configured(db.servers[server], protocol) then None
    else if protocol != WireGuard then Some(Material(None, Some(next), None))
    else
      match db.servers[server].subnet
      case None => None
      case Some(p) =>
        if !ValidPrefix(p) then None
        else
          match Choice(p, AddressesUsed(db.keys, server))
          case None => None
          case Some(a) => Some(Material(Some(next), None, Some(a)))
  }

  /** The transaction that ends the issuing of a credential. */
  function CommitDb(db: Db, p: Proc): Option<Db>
    requires p.Issue?
  {
    match p.target
    case Fresh(n) => Persist(db, n, p.server, p.m)
    case Move(sub, from, _) => Reassign(db, sub, from, p.server, p.m)
  }

  ghost predicate Running(w: World, pid: nat) {
    pid in w.procs && w.procs[pid].Issue?
  }

  ghost predicate Enabled(w: World, s: Step) {
    match s
    case BeginCreate(pid, p, server) =>
      pid !in w.procs && Generate(w.db, server, p.protocol, w.next).Some?
    case BeginMove(pid, sub, from, server, oldKey) =>
      && pid !in w.procs && sub < |w.db.subs| && from < |w.db.servers| && server != from
      && Generate(w.db, server, w.db.subs[sub].protocol, w.next).Some?
      && (oldKey.Some? ==> KeyOf(w.db, oldKey.value, sub))
    case AddOk(pid) => Running(w, pid) && !w.procs[pid].provisioned && Cred(w.procs[pid].m).Some?
    case AddFailed(pid) => Running(w, pid) && !w.procs[pid].provisioned && Cred(w.procs[pid].m).Some?
    case Commit(pid) => Running(w, pid) && w.procs[pid].provisioned && CommitDb(w.db, w.procs[pid]).Some?
    case Refused(pid) => Running(w, pid) && w.procs[pid].provisioned && CommitDb(w.db, w.procs[pid]).None?
    case Delete(pid, user, sub, scan) =>
      pid !in w.procs && Deletable(w.db, user, sub) && IsScan(w.db, sub, scan)
    case RemoveOk(pid) => pid in w.procs && w.procs[pid].Remove? && w.procs[pid].cred.Some?
    case RemoveFailed(pid) => pid in w.procs && w.procs[pid].Remove? && w.procs[pid].cred.Some?
    case LateAdd(pid) => pid in w.procs && w.procs[pid].Late?
    case Stop(pid) => pid in w.procs
    case Expire(sub) => sub < |w.db.subs| && w.db.subs[sub].status == Active
    case Extend(sub, _) => sub < |w.db.subs| && w.db.subs[sub].status != Deleted
    case SetStatus(server, _) => server < |w.db.servers|
  }

  /** What a deletion withdraws, as the scan of the key rows decides. */
  function DeletionTarget(db: Db, sub: nat, scan: seq<nat>): Option<nat>
    requires sub < |db.subs| && forall i :: 0 <= i < |scan| ==> scan[i] < |db.keys|
  {
    RemovalTarget(db.subs[sub].protocol, Picked(db.keys, scan))
  }

  ghost function Do(w: World, s: Step): World
    requires Enabled(w, s)
  {
    match s
    case BeginCreate(pid, p, server) =>
      var m := Generate(w.db, server, p.protocol, w.next).value;
      w.(procs := w.procs[pid := Issue(Fresh(p), p.protocol, server, m, false)], next := w.next + 1)
    case BeginMove(pid, sub, from, server, oldKey) =>
      var protocol := w.db.subs[sub].protocol;
      var m := Generate(w.db, server, protocol, w.next).value;
      var former := if oldKey.Some? then RemovalTarget(protocol, w.db.keys[oldKey.value].material) else None;
      w.(procs := w.procs[pid := Issue(Move(sub, from, former), protocol, server, m, false)], next := w.next + 1)
    case AddOk(pid) =>
      var p := w.procs[pid];
      w.(installed := w.installed + {(p.server, p.protocol, Cred(p.m).value)},
         procs := w.procs[pid := p.(provisioned := true)])
    case AddFailed(pid) =>
      var p := w.procs[pid];
      w.(procs := w.procs[pid := Late(p.server, p.protocol, Cred(p.m).value)])
    case Commit(pid) => DoCommit(w, pid)
    case Refused(pid) => w.(procs := w.procs - {pid})
    case Delete(pid, user, sub, scan) =>
      w.(db := SoftDelete(w.db, sub),
         procs := w.procs[pid := Remove(w.db.subs[sub].server, w.db.subs[sub].protocol,
                                        DeletionTarget(w.db, sub, scan))])
    case RemoveOk(pid) =>
      var p := w.procs[pid];
      w.(installed := w.installed - {(p.server, p.protocol, p.cred.value)}, procs := w.procs - {pid})
    case RemoveFailed(pid) => w
    case LateAdd(pid) =>
      var p := w.procs[pid];
      w.(installed := w.installed + {(p.server, p.protocol, p.pending)}, procs := w.procs - {pid})
    case Stop(pid) => w.(procs := w.procs - {pid})
    case Expire(sub) => WithSub(w, sub, w.db.subs[sub].(status := Expired))
    case Extend(sub, expiresAt) => WithSub(w, sub, w.db.subs[sub].(status := Active, expiresAt := expiresAt))
    case SetStatus(server, status) =>
      w.(db := w.db.(servers := w.db.servers[server := w.db.servers[server].(status := status)]))
  }

  /** A successful move goes on to withdraw the old credential. */
  ghost function DoCommit(w: World, pid: nat): World
    requires Running(w, pid) && CommitDb(w.db, w.procs[pid]).Some?
  {
    var p := w.procs[pid];
    w.(db := CommitDb(w.db, p).value,
       procs := if p.target.Fresh? then w.procs - {pid}
                else w.procs[pid := Remove(p.target.from, p.protocol, p.target.former)])
  }

  function WithSub(w: World, sub: nat, s: Sub): World
    requires sub < |w.db.subs|
  {
    w.(db := w.db.(subs := w.db.subs[sub := s]))
  }

  // Runs

  ghost predicate Legal(w: World, steps: seq<Step>)
    decreases |steps|
  {
    steps == [] || (Enabled(w, steps[0]) && Legal(Do(w, steps[0]), steps[1..]))
  }

  ghost function Run(w: World, steps: seq<Step>): World
    requires Legal(w, steps)
    decreases |steps|
  {
    if steps == [] then w else Run(Do(w, steps[0]), steps[1..])
  }

  lemma {:induction false} RunAppend(w: World, steps: seq<Step>, s: Step)
    requires Legal(w, steps) && Enabled(Run(w, steps), s)
    ensures Legal(w, steps + [s]) && Run(w, steps + [s]) == Do(Run(w, steps), s)
    decreases |steps|
  {
    hide Do, Enabled;
    if steps == [] {
      assert steps + [s] == [s];
      assert Legal(Do(w, s), [s][1..]);
    } else {
      RunAppend(Do(w, steps[0]), steps[1..], s);
      assert (steps + [s])[1..] == steps[1..] + [s];
    }
  }

  lemma {:induction false} RunConcat(w: World, a: seq<Step>, b: seq<Step>)
    requires Legal(w, a) && Legal(Run(w, a), b)
    ensures Legal(w, a + b) && Run(w, a + b) == Run(Run(w, a), b)
    decreases |a|
  {
    hide Do, Enabled;
    if a == [] {
      assert a + b == b;
    } else {
      RunConcat(Do(w, a[0]), a[1..], b);
      assert (a + b)[1..] == a[1..] + b;
    }
  }

  /** The steps of others do not touch an operation. */
  lemma {:induction false} OthersLeave(w: World, steps: seq<Step>, pid: nat)
    requires Legal(w, steps) && forall i :: 0 <= i < |steps| ==> Owner(steps[i]) != Some(pid)
    ensures pid in Run(w, steps).procs <==> pid in w.procs
    ensures pid in w.procs ==> Run(w, steps).procs[pid] == w.procs[pid]
    decreases |steps|
  {
    if steps != [] {
      StepLeaves(w, steps[0], pid);
      OthersLeave(Do(w, steps[0]), steps[1..], pid);
    }
  }

  lemma StepLeaves(w: World, s: Step, pid: nat)
    requires Enabled(w, s) && Owner(s) != Some(pid)
    ensures pid in Do(w, s).procs <==> pid in w.procs
    ensures pid in w.procs ==> Do(w, s).procs[pid] == w.procs[pid]
  {
    hide Generate, CommitDb, IsScan, SoftDelete, Picked;
  }

  /** A fresh installation: servers with correct counts and no subscriptions yet. */
  ghost predicate Initial(w: World) {
    && w.db.subs == [] && w.db.configs == [] && w.db.keys == []
    && w.procs == map[]
    && forall s :: 0 <= s < |w.db.servers| ==> w.db.servers[s].clientCount == 0
  }

  // The invariant

  ghost predicate KeysShaped(db: Db)
    requires Linked(db)
  {
    forall i :: 0 <= i < |db.keys| ==> Shaped(db.subs[db.configs[i].sub].protocol, db.keys[i].material)
  }

  ghost predicate CredsDistinct(keys: seq<Key>) {
    forall i, j :: 0 <= i < j < |keys| ==> Cred(keys[i].material) != Cred(keys[j].material)
  }

  ghost predicate CredsBelow(keys: seq<Key>, next: nat) {
    forall i :: 0 <= i < |keys| ==> Cred(keys[i].material).Some? && Cred(keys[i].material).value < next
  }

  predicate IsInstalled(w: World, server: nat, protocol: Protocol, m: Material) {
    Cred(m).Some? && (server, protocol, Cred(m).value) in w.installed
  }

  /** Every active key in the database has its client installed on its server's node. */
  ghost predicate ActiveInstalled(w: World)
    requires Linked(w.db)
  {
    forall i :: 0 <= i < |w.db.keys| && w.db.keys[i].active ==>
      IsInstalled(w, w.db.keys[i].server, w.db.subs[w.db.configs[i].sub].protocol, w.db.keys[i].material)
  }

  ghost predicate NotInKeys(keys: seq<Key>, cred: Option<nat>) {
    forall i :: 0 <= i < |keys| ==> Cred(keys[i].material) != cred
  }

  ghost predicate Withdrawn(keys: seq<Key>, cred: nat) {
    exists i :: 0 <= i < |keys| && !keys[i].active && Cred(keys[i].material) == Some(cred)
  }

  ghost predicate Belongs(db: Db, sub: nat, cred: nat) {
    exists i: nat :: KeyOf(db, i, sub) && Cred(db.keys[i].material) == Some(cred)
  }

  ghost predicate IssueOk(w: World, p: Proc)
    requires p.Issue? && Linked(w.db)
  {
    && p.server < |w.db.servers|
    && Shaped(p.protocol, p.m) && Cred(p.m).value < w.next
    && AddressInSubnet(w.db.servers, p.server, p.m.ip)
    && NotInKeys(w.db.keys, Cred(p.m))
    && (p.provisioned ==> IsInstalled(w, p.server, p.protocol, p.m))
    && match p.target
       case Fresh(n) => n.protocol == p.protocol
       case Move(sub, from, former) =>
         && sub < |w.db.subs| && w.db.subs[sub].protocol == p.protocol
         && from < |w.db.servers| && from != p.server
         && (former.Some? ==> Belongs(w.db, sub, former.value))
  }

  ghost predicate ProcOk(w: World, p: Proc)
    requires Linked(w.db)
  {
    match p
    case Issue(_, _, _, _, _) => IssueOk(w, p)
    case Remove(_, _, cred) => cred.Some? ==> Withdrawn(w.db.keys, cred.value)
    case Late(_, _, _) => true
  }

  ghost predicate ProcsOk(w: World)
    requires Linked(w.db)
  {
    && (forall pid :: pid in w.procs ==> ProcOk(w, w.procs[pid]))
    && forall a, b :: a in w.procs && b in w.procs && a != b && w.procs[a].Issue? && w.procs[b].Issue? ==>
                        Cred(w.procs[a].m) != Cred(w.procs[b].m)
  }

  ghost predicate Inv(w: World) {
    && Consistent(w.db) && AddressesSafe(w.db)
    && KeysShaped(w.db) && CredsDistinct(w.db.keys) && CredsBelow(w.db.keys, w.next)
    && ActiveInstalled(w) && ProcsOk(w)
  }

  lemma InitialInv(w: World)
    requires Initial(w)
    ensures Inv(w) && LoadExact(w.db)
  {
  }

  // Every step keeps the invariant

  predicate SameOffer(s: Sub, s': Sub) {
    s'.protocol == s.protocol && s'.country == s.country && s'.user == s.user
  }

  /** Old rows stay, keys never come back to life, and the server rows and what was subscribed to are fixed. */
  ghost predicate KeepsRows(db: Db, db': Db) {
    && OldRowsKept(db, db') && SameServers(db.servers, db'.servers)
    && (forall i :: 0 <= i < |db.keys| ==> (db'.keys[i].active ==> db.keys[i].active))
    && (forall s :: 0 <= s < |db.subs| ==> SameOffer(db.subs[s], db'.subs[s]))
  }

  ghost predicate NewKeysAvoid(db: Db, db': Db, cred: Option<nat>) {
    forall i :: |db.keys| <= i < |db'.keys| ==> Cred(db'.keys[i].material) != cred
  }

  /** What an operation relies on survives a change of the tables that only adds other credentials. */
  lemma ProcOkFrame(w: World, w': World, p: Proc)
    requires Linked(w.db) && Linked(w'.db) && KeepsRows(w.db, w'.db)
    requires ProcOk(w, p) && w.next <= w'.next
    requires p.Issue? ==> NewKeysAvoid(w.db, w'.db, Cred(p.m))
    requires p.Issue? && p.provisioned ==> IsInstalled(w', p.server, p.protocol, p.m)
    ensures ProcOk(w', p)
  {
    match p
    case Issue(target, _, _, _, _) =>
      NotInKeysFrame(w.db, w'.db, Cred(p.m));
      match target {
        case Fresh(_) =>
        case Move(sub, from, former) =>
          if former.Some? {
            var i: nat :| KeyOf(w.db, i, sub) && Cred(w.db.keys[i].material) == Some(former.value);
            assert KeyOf(w'.db, i, sub) && Cred(w'.db.keys[i].material) == Some(former.value);
          }
      }
    case Remove(_, _, cred) =>
      if cred.Some? {
        var i :| 0 <= i < |w.db.keys| && !w.db.keys[i].active && Cred(w.db.keys[i].material) == Some(cred.value);
        assert !w'.db.keys[i].active && Cred(w'.db.keys[i].material) == Some(cred.value);
      }
    case Late(_, _, _) =>
  }

  lemma NotInKeysFrame(db: Db, db': Db, cred: Option<nat>)
    requires OldRowsKept(db, db') && NotInKeys(db.keys, cred) && NewKeysAvoid(db, db', cred)
    ensures NotInKeys(db'.keys, cred)
  {
    forall i | 0 <= i < |db'.keys| ensures Cred(db'.keys[i].material) != cred {
      if i < |db.keys| {
        assert db'.keys[i].material == db.keys[i].material;
      }
    }
  }

  lemma SameRows(db: Db)
    ensures KeepsRows(db, db)
  {
  }

  /** A credential nobody used before enters only the new operation. */
  lemma BeginKeeps(w: World, pid: nat, p: Proc)
    requires Inv(w) && pid !in w.procs
    requires p.Issue? && !p.provisioned && Cred(p.m) == Some(w.next)
    requires IssueOk(w.(next := w.next + 1), p)
    ensures Inv(w.(procs := w.procs[pid := p], next := w.next + 1))
  {
    var w' := w.(procs := w.procs[pid := p], next := w.next + 1);
    SameRows(w.db);
    forall q | q in w.procs ensures ProcOk(w', w.procs[q]) {
      ProcOkFrame(w, w', w.procs[q]);
    }
  }

  lemma GeneratedMaterial(w: World, server: nat, protocol: Protocol)
    requires Inv(w) && Generate(w.db, server, protocol, w.next).Some?
    ensures var m := Generate(w.db, server, protocol, w.next).value;
            && Shaped(protocol, m) && Cred(m) == Some(w.next)
            && AddressInSubnet(w.db.servers, server, m.ip) && NotInKeys(w.db.keys, Cred(m))
            && (m.ip.Some? ==> m.ip.value !in AddressesUsed(w.db.keys, server))
  {
    if protocol == WireGuard {
      ChoiceIsLeast(w.db.servers[server].subnet.value, AddressesUsed(w.db.keys, server));
    }
  }

  /** The server's subnet is no prefix, or its active keys hold all the host addresses. */
  ghost predicate Exhausted(db: Db, server: nat)
    requires server < |db.servers| && db.servers[server].subnet.Some?
  {
    var p := db.servers[server].subnet.value;
    !ValidPrefix(p) || forall a: u32 :: IsHost(p, a) ==> AddressUsed(db.keys, server, a)
  }

  /** A column is null that generating needs, or, for WireGuard, no address is left. */
  ghost predicate CannotGive(db: Db, server: nat, protocol: Protocol) {
    server < |db.servers|
    && (!Configured(db.servers[server], protocol) || (protocol == WireGuard && Exhausted(db, server)))
  }

  /** Generating fails exactly for these reasons. */
  lemma NothingToGive(db: Db, server: nat, protocol: Protocol, next: nat)
    requires server < |db.servers|
    ensures Generate(db, server, protocol, next).None? <==> CannotGive(db, server, protocol)
  {
    if Configured(db.servers[server], protocol) && protocol == WireGuard {
      var p := db.servers[server].subnet.value;
      if ValidPrefix(p) {
        ChoiceIsLeast(p, AddressesUsed(db.keys, server));
      }
    }
  }

  /**
   * A new credential is one that was not used before. For WireGuard the address is the least host of the subnet,
   * at offsets 2 to two below its size, that no active key of the server has.
   */
  lemma GeneratedMeans(db: Db, server: nat, protocol: Protocol, next: nat)
    requires Generate(db, server, protocol, next).Some?
    ensures var m := Generate(db, server, protocol, next).value;
            && server < |db.servers|
            && if protocol != WireGuard then m.clientUuid == Some(next) && m.publicKey.None? && m.ip.None?
               else
                 && m.publicKey == Some(next) && m.clientUuid.None? && m.ip.Some? && db.servers[server].subnet.Some?
                 && var p, a := db.servers[server].subnet.value, m.ip.value;
                    && p.ones <= 32 && p.network + 2 <= a <= p.network + Pow2(32 - p.ones) - 2
                    && (forall i :: 0 <= i < |db.keys| && db.keys[i].active && db.keys[i].server == server ==>
                          db.keys[i].material.ip != Some(a))
                    && forall b: u32 :: p.network + 2 <= b < a ==> AddressUsed(db.keys, server, b)
  {
    hide Choice;
    if protocol == WireGuard {
      var p := db.servers[server].subnet.value;
      ChoiceIsLeast(p, AddressesUsed(db.keys, server));
      var a := Choice(p, AddressesUsed(db.keys, server)).value;
      forall b: u32 | p.network + 2 <= b < a ensures AddressUsed(db.keys, server, b) {
        assert IsHost(p, b);
      }
      assert !AddressUsed(db.keys, server, a);
    }
  }

  /** Which columns generating needs, and when there is no address left. */
  lemma GenerateNeeds(db: Db, server: nat, protocol: Protocol, next: nat)
    requires server < |db.servers|
    ensures var s := db.servers[server];
            Generate(db, server, protocol, next).Some?
            <==> && (protocol == VlessReality ==> {RealityPort, RealityPublicKey, RealitySni} <= s.columns)
                 && (protocol == Shadowsocks ==> {SsPort, SsMethod, SsServerKey} <= s.columns)
                 && (protocol == Trojan ==> {TrojanPort, RealityPublicKey, RealitySni} <= s.columns)
                 && (protocol == WireGuard ==>
                       && {WgPort, WgPublicKey} <= s.columns && s.subnet.Some? && ValidPrefix(s.subnet.value)
                       && exists a: u32 ::
                            && s.subnet.value.network + 2 <= a
                            && a <= s.subnet.value.network + Pow2(32 - s.subnet.value.ones) - 2
                            && !AddressUsed(db.keys, server, a))
  {
    var s := db.servers[server];
    NothingToGive(db, server, protocol, next);
    hide Generate, AddressUsed;
    if protocol == WireGuard && s.subnet.Some? && ValidPrefix(s.subnet.value) {
      forall a: u32
        ensures IsHost(s.subnet.value, a)
                <==> s.subnet.value.network + 2 <= a <= s.subnet.value.network + Pow2(32 - s.subnet.value.ones) - 2
      {
      }
    }
  }

  lemma FormerBelongs(w: World, sub: nat, k: nat)
    requires Inv(w) && KeyOf(w.db, k, sub)
    ensures var former := RemovalTarget(w.db.subs[sub].protocol, w.db.keys[k].material);
            former.Some? ==> Belongs(w.db, sub, former.value)
  {
    assert Shaped(w.db.subs[sub].protocol, w.db.keys[k].material);
  }

  lemma BeginCreateKeeps(w: World, s: Step)
    requires Inv(w) && Enabled(w, s) && s.BeginCreate?
    ensures Inv(Do(w, s))
  {
    GeneratedMaterial(w, s.server, s.p.protocol);
    var m := Generate(w.db, s.server, s.p.protocol, w.next).value;
    assert Linked(w.db);
    hide Inv, Generate;
    BeginKeeps(w, s.pid, Issue(Fresh(s.p), s.p.protocol, s.server, m, false));
  }

  lemma BeginMoveKeeps(w: World, s: Step)
    requires Inv(w) && Enabled(w, s) && s.BeginMove?
    ensures Inv(Do(w, s))
  {
    var protocol := w.db.subs[s.sub].protocol;
    GeneratedMaterial(w, s.server, protocol);
    var m := Generate(w.db, s.server, protocol, w.next).value;
    if s.oldKey.Some? {
      FormerBelongs(w, s.sub, s.oldKey.value);
    }
    assert Linked(w.db);
    hide Inv, Generate, Belongs, ProcsOk, AddressInSubnet, NotInKeys;
    var former := if s.oldKey.Some? then RemovalTarget(protocol, w.db.keys[s.oldKey.value].material) else None;
    BeginKeeps(w, s.pid, Issue(Move(s.sub, s.from, former), protocol, s.server, m, false));
  }

  /** More installed clients and other bookkeeping of one operation that holds no credential any more. */
  lemma NodeStepsKeep(w: World, s: Step)
    requires Inv(w) && Enabled(w, s)
    requires s.AddOk? || s.AddFailed? || s.LateAdd? || s.Refused? || s.RemoveFailed? || s.Stop?
    ensures Inv(Do(w, s))
  {
    var w' := Do(w, s);
    SameRows(w.db);
    forall q | q in w'.procs ensures ProcOk(w', w'.procs[q]) {
      if q != s.pid {
        ProcOkFrame(w, w', w.procs[q]);
      } else if s.AddOk? || s.RemoveFailed? {
        ProcOkFrame(w, w', w.procs[q]);
      }
    }
  }

  /** Withdrawing a revoked credential takes no active key and no provisioned operation off a node. */
  lemma RemoveKeeps(w: World, pid: nat)
    requires Inv(w) && Enabled(w, RemoveOk(pid))
    ensures Inv(Do(w, RemoveOk(pid)))
  {
    var w' := Do(w, RemoveOk(pid));
    var gone := w.procs[pid].cred;
    assert ProcOk(w, w.procs[pid]);
    GoneIsInactive(w.db.keys, gone);
    SameRows(w.db);
    forall q | q in w'.procs ensures ProcOk(w', w'.procs[q]) {
      assert ProcOk(w, w.procs[q]);
      RemovedElsewhere(w, w.procs[q], gone);
      ProcOkFrame(w, w', w.procs[q]);
    }
    hide ProcOk, Consistent, AddressesSafe, KeysShaped, CredsDistinct, CredsBelow;
  }

  lemma GoneIsInactive(keys: seq<Key>, gone: Option<nat>)
    requires CredsDistinct(keys) && (gone.Some? ==> Withdrawn(keys, gone.value))
    ensures gone.Some? ==> forall i :: 0 <= i < |keys| && keys[i].active ==> Cred(keys[i].material) != gone
  {
    if gone.Some? {
      var k :| 0 <= k < |keys| && !keys[k].active && Cred(keys[k].material) == Some(gone.value);
      forall i | 0 <= i < |keys| && keys[i].active ensures Cred(keys[i].material) != gone {
        assert i < k || k < i;
      }
    }
  }

  lemma RemovedElsewhere(w: World, p: Proc, gone: Option<nat>)
    requires Linked(w.db) && ProcOk(w, p) && (gone.Some? ==> Withdrawn(w.db.keys, gone.value))
    ensures p.Issue? && gone.Some? ==> Cred(p.m) != gone
  {
    if p.Issue? && gone.Some? {
      var k :| 0 <= k < |w.db.keys| && !w.db.keys[k].active && Cred(w.db.keys[k].material) == Some(gone.value);
      assert NotInKeys(w.db.keys, Cred(p.m));
    }
  }

  /** Changing the status or expiry of a subscription that stays undeleted. */
  lemma StatusKeeps(w: World, sub: nat, s: Sub)
    requires Inv(w) && sub < |w.db.subs|
    requires w.db.subs[sub].status != Deleted && s.status != Deleted
    requires s == w.db.subs[sub].(status := s.status, expiresAt := s.expiresAt)
    ensures Inv(WithSub(w, sub, s))
  {
    var w' := WithSub(w, sub, s);
    forall i | 0 <= i < |w.db.keys| ensures w.db.keys[i].active <==> LiveConfig(w'.db, i) {
      assert w.db.keys[i].active <==> LiveConfig(w.db, i);
    }
    forall q | q in w.procs ensures ProcOk(w', w.procs[q]) {
      ProcOkFrame(w, w', w.procs[q]);
    }
  }

  lemma ServerStatusKeeps(w: World, server: nat, status: ServerStatus)
    requires Inv(w) && Enabled(w, SetStatus(server, status))
    ensures Inv(Do(w, SetStatus(server, status)))
  {
    var w' := Do(w, SetStatus(server, status));
    forall i | 0 <= i < |w.db.keys| ensures w.db.keys[i].active <==> LiveConfig(w'.db, i) {
      assert w.db.keys[i].active <==> LiveConfig(w.db, i);
    }
    forall q | q in w.procs ensures ProcOk(w', w.procs[q]) {
      ProcOkFrame(w, w', w.procs[q]);
    }
  }

  lemma SoftDeleteRelation(db: Db, sub: nat)
    requires Consistent(db) && AddressesSafe(db) && sub < |db.subs|
    ensures var db' := SoftDelete(db, sub);
            && Consistent(db') && AddressesSafe(db') && KeepsRows(db, db') && |db'.keys| == |db.keys|
  {
    SoftDeleteKeeps(db, sub);
    SoftDeleteRows(db, sub);
    SoftDeleteAddresses(db, sub);
  }

  lemma DeleteKeeps(w: World, pid: nat, user: nat, sub: nat, scan: seq<nat>)
    requires Inv(w) && Enabled(w, Delete(pid, user, sub, scan))
    ensures Inv(Do(w, Delete(pid, user, sub, scan)))
  {
    var w' := Do(w, Delete(pid, user, sub, scan));
    SoftDeleteRelation(w.db, sub);
    DeletionTargetWithdrawn(w, sub, scan);
    hide SoftDelete, AddressesSafe, Ranked, LastIsLive, SameServers, DeletionTarget, IsScan;
    forall q | q in w.procs ensures ProcOk(w', w.procs[q]) {
      ProcOkFrame(w, w', w.procs[q]);
    }
    hide ProcOk;
    KeyFactsFrame(w, w');
  }

  /** Facts about keys that do not depend on which operations run. */
  lemma KeyFactsFrame(w: World, w': World)
    requires Linked(w.db) && Linked(w'.db) && KeepsRows(w.db, w'.db) && |w'.db.keys| == |w.db.keys|
    requires KeysShaped(w.db) && CredsDistinct(w.db.keys) && CredsBelow(w.db.keys, w.next) && ActiveInstalled(w)
    requires w'.installed == w.installed && w'.next == w.next
    ensures KeysShaped(w'.db) && CredsDistinct(w'.db.keys) && CredsBelow(w'.db.keys, w'.next) && ActiveInstalled(w')
  {
    assert forall i :: 0 <= i < |w.db.keys| ==> w'.db.keys[i].material == w.db.keys[i].material
                                                && w'.db.keys[i].server == w.db.keys[i].server;
  }

  /** Whatever key row the scan picks, its credential is revoked by the same transaction. */
  lemma DeletionTargetWithdrawn(w: World, sub: nat, scan: seq<nat>)
    requires Inv(w) && sub < |w.db.subs| && IsScan(w.db, sub, scan)
    ensures var target := DeletionTarget(w.db, sub, scan);
            target.Some? ==> Withdrawn(SoftDelete(w.db, sub).keys, target.value)
  {
    SoftDeleteRows(w.db, sub);
    PickedFromScan(w.db.keys, scan);
    var m := Picked(w.db.keys, scan);
    if RemovalTarget(w.db.subs[sub].protocol, m).Some? {
      var i :| 0 <= i < |scan| && m == w.db.keys[scan[i]].material;
      assert KeyOf(w.db, scan[i], sub);
      assert !SoftDelete(w.db, sub).keys[scan[i]].active;
    }
  }

  lemma {:induction false} PickedFromScan(keys: seq<Key>, scan: seq<nat>)
    requires forall i :: 0 <= i < |scan| ==> scan[i] < |keys|
    ensures scan == [] ==> Picked(keys, scan) == Material(None, None, None)
    ensures scan != [] ==> exists i :: 0 <= i < |scan| && Picked(keys, scan) == keys[scan[i]].material
  {
    if scan != [] {
      var init := scan[..|scan| - 1];
      PickedFromScan(keys, init);
      if Picked(keys, init).publicKey.None? {
        assert Picked(keys, scan) == keys[scan[|scan| - 1]].material;
      } else {
        var i :| 0 <= i < |init| && Picked(keys, init) == keys[init[i]].material;
        assert Picked(keys, scan) == keys[scan[i]].material;
      }
    }
  }

  /** The subscription that a transaction adds a key to. */
  function TargetSub(db: Db, p: Proc): nat
    requires p.Issue?
  {
    if p.target.Fresh? then |db.subs| else p.target.sub
  }

  /** db' is db with one more key, of the issued material, for the subscription that p is about. */
  ghost predicate KeyAdded(db: Db, p: Proc, db': Db)
    requires Linked(db) && p.Issue?
  {
    && KeepsRows(db, db')
    && ConfigAdded(db, db', TargetSub(db, p))
    && db'.keys[|db.keys|] == Key(|db.keys|, p.server, p.m, true)
    && db'.subs[TargetSub(db, p)].protocol == p.protocol
  }

  lemma ConfigAddedRows(db: Db, db': Db, sub: nat)
    requires Linked(db) && ConfigAdded(db, db', sub) && OldRowsKept(db, db') && SameServers(db.servers, db'.servers)
    requires forall s :: 0 <= s < |db.subs| ==> SameOffer(db.subs[s], db'.subs[s])
    ensures KeepsRows(db, db')
  {
    hide OldRowsKept, SameServers, NumConfigs;
    assert |db.keys| <= |db'.keys| && |db.subs| <= |db'.subs|;
  }

  lemma PersistRelation(db: Db, p: Proc)
    requires Consistent(db) && p.Issue? && p.target.Fresh? && p.target.p.protocol == p.protocol
    requires CommitDb(db, p).Some? && SameServers(db.servers, CommitDb(db, p).value.servers)
    ensures KeyAdded(db, p, CommitDb(db, p).value)
  {
    PersistKeeps(db, p.target.p, p.server, p.m);
    hide Ranked, LastIsLive, NumConfigs, AddressFree, ConfigAdded, OldRowsKept, KeepsRows, SameServers;
    ConfigAddedRows(db, CommitDb(db, p).value, |db.subs|);
  }

  lemma ReassignRelation(db: Db, p: Proc)
    requires Consistent(db) && p.Issue? && p.target.Move?
    requires CommitDb(db, p).Some? && SameServers(db.servers, CommitDb(db, p).value.servers)
    requires db.subs[p.target.sub].protocol == p.protocol
    ensures KeyAdded(db, p, CommitDb(db, p).value)
  {
    ReassignKeeps(db, p.target.sub, p.target.from, p.server, p.m);
    hide Ranked, LastIsLive, NumConfigs, MaxVersion, AddressFree, Revoke;
    hide ConfigAdded, OldRowsKept, KeepsRows, SameServers;
    ConfigAddedRows(db, CommitDb(db, p).value, p.target.sub);
  }

  /** A transaction that succeeds adds one key with the issued material and revokes the former ones. */
  lemma CommitRelation(w: World, p: Proc)
    requires Inv(w) && p.Issue? && IssueOk(w, p) && CommitDb(w.db, p).Some?
    ensures var db' := CommitDb(w.db, p).value;
            Consistent(db') && AddressesSafe(db') && KeyAdded(w.db, p, db')
  {
    match p.target
    case Fresh(n) =>
      PersistKeeps(w.db, n, p.server, p.m);
      PersistAddresses(w.db, n, p.server, p.m);
      PersistRelation(w.db, p);
    case Move(sub, from, former) =>
      ReassignKeeps(w.db, sub, from, p.server, p.m);
      ReassignAddresses(w.db, sub, from, p.server, p.m);
      ReassignRelation(w.db, p);
  }

  lemma CommitKeyFacts(w: World, p: Proc, w': World)
    requires Inv(w) && p.Issue? && IssueOk(w, p) && p.provisioned
    requires Consistent(w'.db) && KeyAdded(w.db, p, w'.db)
    requires w'.installed == w.installed && w'.next == w.next
    ensures KeysShaped(w'.db) && CredsDistinct(w'.db.keys) && CredsBelow(w'.db.keys, w'.next) && ActiveInstalled(w')
  {
    hide NumConfigs, Ranked, LastIsLive, AddressesSafe, ProcsOk, AddressInSubnet;
    var n := |w.db.keys|;
    assert forall i :: 0 <= i < n ==> w'.db.keys[i].material == w.db.keys[i].material
                                      && w'.db.keys[i].server == w.db.keys[i].server;
    assert w'.db.configs[n].sub == TargetSub(w.db, p);
    assert forall i :: 0 <= i < n ==> w'.db.configs[i] == w.db.configs[i];
  }

  /** After a move every former credential of the subscription is revoked. */
  lemma FormerWithdrawn(db: Db, db': Db, sub: nat, cred: nat)
    requires Linked(db) && ConfigAdded(db, db', sub) && Belongs(db, sub, cred)
    ensures Withdrawn(db'.keys, cred)
  {
    var i: nat :| KeyOf(db, i, sub) && Cred(db.keys[i].material) == Some(cred);
    assert db'.keys[i] == AfterRevoke(db, sub, i);
  }

  lemma CommitKeeps(w: World, pid: nat)
    requires Inv(w) && Enabled(w, Commit(pid))
    ensures Inv(Do(w, Commit(pid)))
  {
    var p := w.procs[pid];
    assert ProcOk(w, p);
    var w' := DoCommit(w, pid);
    CommitRelation(w, p);
    CommitKeyFacts(w, p, w');
    CommitProcs(w, pid, w');
  }

  /** The operation that committed goes on, if at all, to withdraw a credential that is revoked by now. */
  lemma CommittedProc(w: World, p: Proc, w': World)
    requires Linked(w.db) && Linked(w'.db) && p.Issue? && p.target.Move? && IssueOk(w, p)
    requires KeyAdded(w.db, p, w'.db)
    ensures ProcOk(w', Remove(p.target.from, p.protocol, p.target.former))
  {
    hide KeepsRows;
    if p.target.former.Some? {
      FormerWithdrawn(w.db, w'.db, p.target.sub, p.target.former.value);
    }
  }

  /** The other operations are not affected by the key that was added. */
  lemma OtherProc(w: World, pid: nat, w': World, q: nat)
    requires Linked(w.db) && Linked(w'.db) && ProcsOk(w) && pid in w.procs && q in w.procs && q != pid
    requires w.procs[pid].Issue? && KeyAdded(w.db, w.procs[pid], w'.db)
    requires w'.installed == w.installed && w'.next == w.next
    ensures ProcOk(w', w.procs[q])
  {
    assert ProcOk(w, w.procs[q]);
    assert |w'.db.keys| == |w.db.keys| + 1;
    hide KeepsRows, ProcOk;
    if w.procs[q].Issue? {
      assert Cred(w.procs[q].m) != Cred(w.procs[pid].m);
      assert NewKeysAvoid(w.db, w'.db, Cred(w.procs[q].m));
    }
    InstalledFrame(w, w', w.procs[q]);
    ProcOkFrame(w, w', w.procs[q]);
  }

  lemma InstalledFrame(w: World, w': World, p: Proc)
    requires Linked(w.db) && ProcOk(w, p) && w'.installed == w.installed
    ensures p.Issue? && p.provisioned ==> IsInstalled(w', p.server, p.protocol, p.m)
  {
  }

  lemma IssueOfProc(w: World, p: Proc)
    requires Linked(w.db) && ProcOk(w, p) && p.Issue?
    ensures IssueOk(w, p)
  {
  }

  lemma CommitProcs(w: World, pid: nat, w': World)
    requires Linked(w.db) && ProcsOk(w) && Running(w, pid) && CommitDb(w.db, w.procs[pid]).Some?
    requires w' == DoCommit(w, pid)
    requires Linked(w'.db) && KeyAdded(w.db, w.procs[pid], w'.db)
    ensures ProcsOk(w')
  {
    hide CommitDb, KeyAdded, ProcOk, Linked, IssueOk;
    var p := w.procs[pid];
    IssueOfProc(w, p);
    if pid in w'.procs {
      CommittedProc(w, p, w');
    }
    forall q | q in w'.procs && q != pid ensures ProcOk(w', w'.procs[q]) {
      OtherProc(w, pid, w', q);
    }
  }

  /** Every step, whatever is under way, keeps the invariant. */
  lemma StepKeeps(w: World, s: Step)
    requires Inv(w) && Enabled(w, s)
    ensures Inv(Do(w, s))
  {
    hide Inv;
    match s
    case BeginCreate(_, _, _) => BeginCreateKeeps(w, s);
    case BeginMove(_, _, _, _, _) => BeginMoveKeeps(w, s);
    case AddOk(_) => NodeStepsKeep(w, s);
    case AddFailed(_) => NodeStepsKeep(w, s);
    case Commit(pid) => CommitKeeps(w, pid);
    case Refused(_) => NodeStepsKeep(w, s);
    case Delete(pid, user, sub, scan) => DeleteKeeps(w, pid, user, sub, scan);
    case RemoveOk(pid) => RemoveKeeps(w, pid);
    case RemoveFailed(_) => NodeStepsKeep(w, s);
    case LateAdd(_) => NodeStepsKeep(w, s);
    case Stop(_) => NodeStepsKeep(w, s);
    case Expire(sub) => StatusKeeps(w, sub, w.db.subs[sub].(status := Expired));
    case Extend(sub, e) => StatusKeeps(w, sub, w.db.subs[sub].(status := Active, expiresAt := e));
    case SetStatus(server, status) => ServerStatusKeeps(w, server, status);
  }

  /** Every reachable world satisfies the invariant. */
  lemma {:induction false} RunKeeps(w: World, steps: seq<Step>)
    requires Inv(w) && Legal(w, steps)
    ensures Inv(Run(w, steps))
    decreases |steps|
  {
    if steps != [] {
      StepKeeps(w, steps[0]);
      RunKeeps(Do(w, steps[0]), steps[1..]);
    }
  }

  // What holds over whole runs

  /**
   * From a fresh installation, in every reachable world: each active key has its client on its server's
   * node, active keys of a server hold distinct host addresses of its subnet, and the tables are consistent.
   */
  lemma ReachableSafety(w: World, steps: seq<Step>, i: nat)
    requires Initial(w) && Legal(w, steps)
    ensures var v := Run(w, steps);
            && Consistent(v.db) && AddressesSafe(v.db)
            && (i < |v.db.keys| && v.db.keys[i].active ==>
                  IsInstalled(v, v.db.keys[i].server, v.db.subs[v.db.configs[i].sub].protocol, v.db.keys[i].material))
  {
    InitialInv(w);
    RunKeeps(w, steps);
  }

  lemma StepRows(w: World, s: Step)
    requires Inv(w) && Enabled(w, s)
    ensures KeepsRows(w.db, Do(w, s).db)
  {
    SameRows(w.db);
    match s
    case Commit(pid) =>
      assert ProcOk(w, w.procs[pid]);
      CommitRelation(w, w.procs[pid]);
    case Delete(_, _, sub, _) => SoftDeleteRelation(w.db, sub);
    case _ =>
  }

  lemma RowsTransitive(a: Db, b: Db, c: Db)
    requires KeepsRows(a, b) && KeepsRows(b, c)
    ensures KeepsRows(a, c)
  {
    assert forall i :: 0 <= i < |a.configs| ==> c.configs[i] == b.configs[i];
  }

  /** A revoked key is never active again, and protocols, configs and subnets never change. */
  lemma {:induction false} RowsOverRun(w: World, steps: seq<Step>)
    requires Inv(w) && Legal(w, steps)
    ensures KeepsRows(w.db, Run(w, steps).db)
    decreases |steps|
  {
    if steps == [] {
      SameRows(w.db);
    } else {
      StepKeeps(w, steps[0]);
      StepRows(w, steps[0]);
      RowsOverRun(Do(w, steps[0]), steps[1..]);
      RowsTransitive(w.db, Do(w, steps[0]).db, Run(w, steps).db);
    }
  }

  // What a successful move does, and whether a deletion is final

  /** The subscription is active on another server, where its new key is active and its client installed. */
  ghost predicate Relocated(w: World, w': World, pid: nat, sub: nat, from: nat) {
    && Running(w, pid) && w.procs[pid].target.Move? && w.procs[pid].target.sub == sub
    && w.procs[pid].target.from == from && w.procs[pid].server != from
    && sub < |w'.db.subs| && w'.db.subs[sub].server == w.procs[pid].server && w'.db.subs[sub].status == Active
    && ActiveKeyOf(w'.db, |w.db.keys|, sub) && w'.db.keys[|w.db.keys|].material == w.procs[pid].m
    && w'.db.keys[|w.db.keys|].server == w.procs[pid].server
    && IsInstalled(w', w.procs[pid].server, w.procs[pid].protocol, w.procs[pid].m)
  }

  lemma MoveRelocates(w: World, pid: nat)
    requires Inv(w) && Enabled(w, Commit(pid)) && w.procs[pid].target.Move?
    ensures Relocated(w, Do(w, Commit(pid)), pid, w.procs[pid].target.sub, w.procs[pid].target.from)
  {
    hide Inv, Consistent, AddressesSafe, KeepsRows, NumConfigs;
    var p := w.procs[pid];
    IssueIsOk(w, pid);
    CommitRelation(w, p);
  }

  lemma IssueIsOk(w: World, pid: nat)
    requires Inv(w) && Running(w, pid)
    ensures Linked(w.db) && IssueOk(w, w.procs[pid])
  {
    assert ProcOk(w, w.procs[pid]);
  }

  /** A create that commits leaves the subscription with an active key on the server and the client installed. */
  lemma CreateIssues(w: World, pid: nat)
    requires Inv(w) && Enabled(w, Commit(pid)) && w.procs[pid].target.Fresh?
    ensures var p, v := w.procs[pid], Do(w, Commit(pid));
            && v.db.subs == w.db.subs + [Sub(p.target.p.user, p.server, p.target.p.country, p.target.p.protocol,
                                             Active, p.target.p.expiresAt)]
            && v.db.configs == w.db.configs + [Config(|w.db.subs|, 1)]
            && v.db.keys == w.db.keys + [Key(|w.db.configs|, p.server, p.m, true)]
            && v.installed == w.installed && IsInstalled(v, p.server, p.target.p.protocol, p.m)
  {
    assert ProcOk(w, w.procs[pid]);
    hide AddressFree, AddCount;
  }

  /** The step commits a move of the subscription that was under way. */
  ghost predicate Revives(w: World, s: Step, sub: nat)
    requires Enabled(w, s)
  {
    s.Commit? && w.procs[s.pid].target.Move? && w.procs[s.pid].target.sub == sub
  }

  ghost predicate NeverRevives(w: World, steps: seq<Step>, sub: nat)
    requires Legal(w, steps)
    decreases |steps|
  {
    steps == [] || (!Revives(w, steps[0], sub) && NeverRevives(Do(w, steps[0]), steps[1..], sub))
  }

  predicate IsDeleted(w: World, sub: nat) {
    sub < |w.db.subs| && w.db.subs[sub].status == Deleted
  }

  ghost predicate AlwaysDeleted(w: World, steps: seq<Step>, sub: nat)
    requires Legal(w, steps)
    decreases |steps|
  {
    IsDeleted(w, sub) && (steps == [] || AlwaysDeleted(Do(w, steps[0]), steps[1..], sub))
  }

  lemma StepDeletes(w: World, s: Step, sub: nat)
    requires Inv(w) && Enabled(w, s) && sub < |w.db.subs|
    ensures sub < |Do(w, s).db.subs| && Do(w, s).db.subs[sub].user == w.db.subs[sub].user
    ensures w.db.subs[sub].status != Deleted && Do(w, s).db.subs[sub].status == Deleted ==>
              s.Delete? && s.sub == sub && s.user == w.db.subs[sub].user
  {
    hide Inv, Generate, AddressFree, IsScan, Picked;
  }

  /** Over any run a subscription becomes deleted only by a deletion that its own user asked for. */
  lemma {:induction false} OnlyOwnerDeletes(w: World, steps: seq<Step>, sub: nat)
    requires Inv(w) && Legal(w, steps) && sub < |w.db.subs|
    ensures sub < |Run(w, steps).db.subs| && Run(w, steps).db.subs[sub].user == w.db.subs[sub].user
    ensures w.db.subs[sub].status != Deleted && Run(w, steps).db.subs[sub].status == Deleted ==>
              exists i :: 0 <= i < |steps| && steps[i].Delete? && steps[i].sub == sub
                          && steps[i].user == w.db.subs[sub].user
    decreases |steps|
  {
    hide Inv, Do, Enabled;
    if steps != [] {
      var v := Do(w, steps[0]);
      StepKeeps(w, steps[0]);
      StepDeletes(w, steps[0], sub);
      OnlyOwnerDeletes(v, steps[1..], sub);
      if w.db.subs[sub].status != Deleted && Run(w, steps).db.subs[sub].status == Deleted {
        if v.db.subs[sub].status != Deleted {
          var i :| 0 <= i < |steps[1..]| && steps[1..][i].Delete? && steps[1..][i].sub == sub
                   && steps[1..][i].user == w.db.subs[sub].user;
          assert steps[i + 1] == steps[1..][i];
        } else {
          assert steps[0].Delete?;
        }
      }
    }
  }

  lemma StepRevives(w: World, s: Step, sub: nat)
    requires Inv(w) && Enabled(w, s) && IsDeleted(w, sub)
    ensures IsDeleted(Do(w, s), sub) <==> !Revives(w, s, sub)
  {
    hide Inv, Generate, AddressFree, IsScan, Picked;
  }

  /** A deletion lasts through a run if and only if no move of the subscription commits in it. */
  lemma {:induction false} DeletedUnlessMoved(w: World, steps: seq<Step>, sub: nat)
    requires Inv(w) && Legal(w, steps) && IsDeleted(w, sub)
    ensures AlwaysDeleted(w, steps, sub) <==> NeverRevives(w, steps, sub)
    decreases |steps|
  {
    if steps != [] {
      StepKeeps(w, steps[0]);
      StepRevives(w, steps[0], sub);
      if IsDeleted(Do(w, steps[0]), sub) {
        DeletedUnlessMoved(Do(w, steps[0]), steps[1..], sub);
      }
    }
  }

  // Loads

  /** Every move that commits finds its subscription still where it was listed. */
  ghost predicate Punctual(w: World, s: Step)
    requires Enabled(w, s)
  {
    s.Commit? && w.procs[s.pid].target.Move? ==>
      StillThere(w.db, w.procs[s.pid].target.sub, w.procs[s.pid].target.from)
  }

  ghost predicate AllPunctual(w: World, steps: seq<Step>)
    requires Legal(w, steps)
    decreases |steps|
  {
    steps == [] || (Punctual(w, steps[0]) && AllPunctual(Do(w, steps[0]), steps[1..]))
  }

  /** A step keeps the client counts exact if and only if it is punctual. */
  lemma StepLoad(w: World, s: Step)
    requires Inv(w) && Enabled(w, s) && LoadExact(w.db)
    ensures LoadExact(Do(w, s).db) <==> Punctual(w, s)
  {
    match s
    case Commit(pid) => CommitLoad(w, pid);
    case Delete(_, user, sub, _) => SoftDeleteLoad(w.db, user, sub);
    case Expire(sub) => StatusLoad(w.db.subs, sub, w.db.subs[sub].(status := Expired));
    case Extend(sub, e) => StatusLoad(w.db.subs, sub, w.db.subs[sub].(status := Active, expiresAt := e));
    case _ =>
  }

  lemma CommitLoad(w: World, pid: nat)
    requires Inv(w) && Enabled(w, Commit(pid)) && LoadExact(w.db)
    ensures LoadExact(Do(w, Commit(pid)).db) <==> Punctual(w, Commit(pid))
  {
    var p := w.procs[pid];
    assert ProcOk(w, p);
    match p.target
    case Fresh(n) => PersistLoad(w.db, n, p.server, p.m);
    case Move(sub, from, _) => ReassignLoad(w.db, sub, from, p.server, p.m);
  }

  lemma StatusLoad(subs: seq<Sub>, sub: nat, s: Sub)
    requires sub < |subs| && s.server == subs[sub].server
    requires subs[sub].status != Deleted && s.status != Deleted
    ensures forall t: nat :: Load(subs[sub := s], t) == Load(subs, t)
  {
    forall t: nat ensures Load(subs[sub := s], t) == Load(subs, t) {
      LoadUpdate(subs, sub, s, t);
    }
  }

  /** Over any run in which the moves are punctual, every server counts exactly its live subscriptions. */
  lemma {:induction false} LoadOverRun(w: World, steps: seq<Step>)
    requires Inv(w) && LoadExact(w.db) && Legal(w, steps) && AllPunctual(w, steps)
    ensures LoadExact(Run(w, steps).db)
    ensures TotalCount(Run(w, steps).db.servers) == LiveSubs(Run(w, steps).db.subs)
    decreases |steps|
  {
    if steps == [] {
      CountsAddUp(w.db);
    } else {
      StepKeeps(w, steps[0]);
      StepLoad(w, steps[0]);
      LoadOverRun(Do(w, steps[0]), steps[1..]);
    }
  }

  // Addresses

  /** The step does not add a key on the server. */
  ghost predicate NoInsert(w: World, s: Step, server: nat)
    requires Enabled(w, s)
  {
    s.Commit? ==> w.procs[s.pid].server != server
  }

  ghost predicate NoInserts(w: World, steps: seq<Step>, server: nat)
    requires Legal(w, steps)
    decreases |steps|
  {
    steps == [] || (NoInsert(w, steps[0], server) && NoInserts(Do(w, steps[0]), steps[1..], server))
  }

  lemma StepAddresses(w: World, s: Step, server: nat, a: u32)
    requires Inv(w) && Enabled(w, s) && NoInsert(w, s, server)
    requires AddressUsed(Do(w, s).db.keys, server, a)
    ensures AddressUsed(w.db.keys, server, a)
  {
    StepRows(w, s);
    var db' := Do(w, s).db;
    var i :| 0 <= i < |db'.keys| && db'.keys[i].active && db'.keys[i].server == server
             && db'.keys[i].material.ip == Some(a);
    if i >= |w.db.keys| {
      NewKeyServer(w, s, i);
    } else {
      assert w.db.keys[i] == db'.keys[i].(active := w.db.keys[i].active);
      assert w.db.keys[i].active && w.db.keys[i].material.ip == Some(a);
    }
  }

  lemma NewKeyServer(w: World, s: Step, i: nat)
    requires Inv(w) && Enabled(w, s) && |w.db.keys| <= i < |Do(w, s).db.keys|
    ensures s.Commit?
    ensures Do(w, s).db.keys[i].server == w.procs[s.pid].server
  {
    match s
    case Commit(pid) =>
      assert ProcOk(w, w.procs[pid]);
      CommitRelation(w, w.procs[pid]);
    case Delete(_, _, sub, _) => SoftDeleteRelation(w.db, sub);
    case _ =>
  }

  lemma {:induction false} RunAddresses(w: World, steps: seq<Step>, server: nat, a: u32)
    requires Inv(w) && Legal(w, steps) && NoInserts(w, steps, server)
    requires AddressUsed(Run(w, steps).db.keys, server, a)
    ensures AddressUsed(w.db.keys, server, a)
    decreases |steps|
  {
    if steps != [] {
      StepKeeps(w, steps[0]);
      RunAddresses(Do(w, steps[0]), steps[1..], server, a);
      StepAddresses(w, steps[0], server, a);
    }
  }

  /**
   * An operation that generated its material in w and commits after steps that added no key on its server
   * is never refused by the unique index.
   */
  lemma UncontestedCommitSucceeds(w: World, begin: Step, steps: seq<Step>)
    requires Inv(w) && Enabled(w, begin) && (begin.BeginCreate? || begin.BeginMove?)
    requires Legal(Do(w, begin), steps) && NoInserts(Do(w, begin), steps, begin.server)
    requires var v := Run(Do(w, begin), steps);
             Running(v, begin.pid) && v.procs[begin.pid].m == Do(w, begin).procs[begin.pid].m
             && v.procs[begin.pid].server == begin.server
    ensures CommitDb(Run(Do(w, begin), steps).db, Run(Do(w, begin), steps).procs[begin.pid]).Some?
  {
    var w' := Do(w, begin);
    var v := Run(w', steps);
    StepKeeps(w, begin);
    RunKeeps(w', steps);
    var p := v.procs[begin.pid];
    assert ProcOk(v, p);
    GeneratedMaterial(w, begin.server, if begin.BeginCreate? then begin.p.protocol else w.db.subs[begin.sub].protocol);
    if p.m.ip.Some? {
      if AddressUsed(v.db.keys, begin.server, p.m.ip.value) {
        RunAddresses(w', steps, begin.server, p.m.ip.value);
      }
      assert AddressFree(v.db.keys, begin.server, p.m.ip);
    }
    if p.target.Move? {
      RevokeFrees(v.db.keys, v.db.configs, p.target.sub, begin.server, p.m.ip);
    }
  }

  lemma RevokeFrees(keys: seq<Key>, configs: seq<Config>, sub: nat, server: nat, ip: Option<u32>)
    requires AddressFree(keys, server, ip)
    ensures AddressFree(Revoke(keys, configs, sub), server, ip)
  {
  }

  /**
   * A transaction is refused only because the address is taken: an active key on the server has it, and for a
   * move that key belongs to another subscription.
   */
  lemma RefusedForAddress(w: World, pid: nat)
    requires Inv(w) && Enabled(w, Refused(pid))
    ensures pid in w.procs && w.procs[pid].Issue? && w.procs[pid].provisioned && w.procs[pid].m.ip.Some?
    ensures var p := w.procs[pid];
            exists i :: && 0 <= i < |w.db.keys| && w.db.keys[i].active && w.db.keys[i].server == p.server
                        && w.db.keys[i].material.ip == p.m.ip && w.db.keys[i].config < |w.db.configs|
                        && (p.target.Move? ==> w.db.configs[w.db.keys[i].config].sub != p.target.sub)
  {
    hide Inv, MaxVersion, AddCount, DropCount;
    var p := w.procs[pid];
    IssueIsOk(w, pid);
    if p.target.Move? {
      var revoked := Revoke(w.db.keys, w.db.configs, p.target.sub);
      var i :| 0 <= i < |revoked| && revoked[i].active && revoked[i].server == p.server
               && revoked[i].material.ip == p.m.ip;
      RevokedStaysOff(w.db.keys, w.db.configs, p.target.sub, i);
      assert w.db.keys[i].active;
    }
  }

  /** In every run, whenever a transaction is refused, the address was taken at that moment. */
  lemma {:induction false} RefusalsOverRun(w: World, steps: seq<Step>, k: nat)
    requires Inv(w) && Legal(w, steps) && k < |steps| && steps[k].Refused?
    ensures Legal(w, steps[..k])
    ensures var v, pid := Run(w, steps[..k]), steps[k].pid;
            && pid in v.procs && v.procs[pid].Issue?
            && exists i :: 0 <= i < |v.db.keys| && v.db.keys[i].active && v.db.keys[i].server == v.procs[pid].server
                           && v.procs[pid].m.ip.Some? && v.db.keys[i].material.ip == v.procs[pid].m.ip
    decreases |steps|
  {
    hide Inv, Do, Enabled;
    if k == 0 {
      assert steps[..0] == [];
      RefusedForAddress(w, steps[0].pid);
    } else {
      StepKeeps(w, steps[0]);
      assert steps[1..][..k - 1] == steps[..k][1..];
      RefusalsOverRun(Do(w, steps[0]), steps[1..], k - 1);
    }
  }
}

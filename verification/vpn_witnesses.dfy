/** Runs from a fresh installation that end where one might not expect it. */
module VpnWitnesses {
  import opened Words
  import opened Text
  import opened Cidr
  import opened Allocator
  import opened Subscriptions
  import opened VpnTables
  import opened VpnLoad
  import opened VpnRepository
  import opened VpnProtocol
  import opened VpnTrails

  const REALITY: Server := Server(0, Serving, false, 0, 0, None, {RealityPort, RealityPublicKey, RealitySni})
  const ORDERED: NewSub := NewSub(7, 0, VlessReality, 100)

  /** Three servers for one protocol, and nothing sold yet. */
  const FRESH: World := World(Db([REALITY, REALITY, REALITY], [], [], []), {}, map[], 0)

  function Counting(count: int): Server {
    REALITY.(clientCount := count)
  }

  function KeyRow(config: nat, server: nat, active: bool): Key {
    Key(config, server, Credential(config), active)
  }

  function Credential(n: nat): Material {
    Material(None, Some(n), None)
  }

  function SubOn(server: nat, status: SubStatus): Sub {
    Sub(7, server, 0, VlessReality, status, 100)
  }

  /** One more step of a run that is known so far. */
  lemma Next(w: World, steps: seq<Step>, v: World, s: Step, v': World)
    requires Legal(w, steps) && Run(w, steps) == v && Enabled(v, s) && Do(v, s) == v'
    ensures Legal(w, steps + [s]) && Run(w, steps + [s]) == v'
  {
    RunAppend(w, steps, s);
  }

  // The subscription on server 0, sold by operation 0

  const SALE: seq<Step> := [BeginCreate(0, ORDERED, 0), AddOk(0), Commit(0)]

  const SOLD: World := World(
    Db([Counting(1), REALITY, REALITY], [SubOn(0, Active)], [Config(0, 1)], [KeyRow(0, 0, true)]),
    {(0, VlessReality, 0)}, map[], 1)

  lemma Sale()
    ensures Initial(FRESH) && Legal(FRESH, SALE) && Run(FRESH, SALE) == SOLD
  {
    var begun := FRESH.(procs := map[0 := Issue(Fresh(ORDERED), VlessReality, 0, Credential(0), false)], next := 1);
    var added := begun.(installed := {(0, VlessReality, 0)},
                        procs := map[0 := Issue(Fresh(ORDERED), VlessReality, 0, Credential(0), true)]);
    Next(FRESH, [], FRESH, BeginCreate(0, ORDERED, 0), begun);
    Next(FRESH, [] + [BeginCreate(0, ORDERED, 0)], begun, AddOk(0), added);
    assert added.procs - {0} == map[];
    Next(FRESH, [] + [BeginCreate(0, ORDERED, 0)] + [AddOk(0)], added, Commit(0), SOLD);
    assert SALE == [] + [BeginCreate(0, ORDERED, 0)] + [AddOk(0)] + [Commit(0)];
  }

  lemma {:induction false} Continue(w: World, a: seq<Step>, v: World, b: seq<Step>, u: World)
    requires Legal(w, a) && Run(w, a) == v && Legal(v, b) && Run(v, b) == u
    ensures Legal(w, a + b) && Run(w, a + b) == u
  {
    RunConcat(w, a, b);
  }

  // Operation 1 has provisioned a move to server 1, but has not committed it

  const DEPARTURE: seq<Step> := [BeginMove(1, 0, 0, 1, Some(0)), AddOk(1)]

  const MOVING: World := SOLD.(
    installed := {(0, VlessReality, 0), (1, VlessReality, 1)},
    procs := map[1 := Issue(Move(0, 0, Some(0)), VlessReality, 1, Credential(1), true)],
    next := 2)

  lemma Departure()
    ensures Legal(SOLD, DEPARTURE) && Run(SOLD, DEPARTURE) == MOVING
  {
    var begun := SOLD.(procs := map[1 := Issue(Move(0, 0, Some(0)), VlessReality, 1, Credential(1), false)], next := 2);
    Next(SOLD, [], SOLD, BeginMove(1, 0, 0, 1, Some(0)), begun);
    assert begun.installed + {(1, VlessReality, 1)} == MOVING.installed;
    Next(SOLD, [] + [BeginMove(1, 0, 0, 1, Some(0))], begun, AddOk(1), MOVING);
    assert DEPARTURE == [] + [BeginMove(1, 0, 0, 1, Some(0))] + [AddOk(1)];
  }

  lemma UntilMoving()
    ensures Initial(FRESH) && Legal(FRESH, SALE + DEPARTURE) && Run(FRESH, SALE + DEPARTURE) == MOVING
  {
    Sale();
    Departure();
    Continue(FRESH, SALE, SOLD, DEPARTURE, MOVING);
  }

  // The move commits, and a deletion follows

  const ARRIVED: Db := Db(
    [Counting(0), Counting(1), REALITY], [SubOn(1, Active)], [Config(0, 1), Config(0, 2)],
    [KeyRow(0, 0, false), KeyRow(1, 1, true)])

  const GONE: Db := Db(
    [Counting(0), Counting(0), REALITY], [SubOn(1, Deleted)], [Config(0, 1), Config(0, 2)],
    [KeyRow(0, 0, false), KeyRow(1, 1, false)])

  const REMOVAL: seq<Step> := [Commit(1), RemoveOk(1), Delete(2, 7, 0, [1, 0]), RemoveOk(2)]

  lemma ArrivalCommits()
    ensures CommitDb(SOLD.db, MOVING.procs[1]) == Some(ARRIVED)
  {
    assert Revoke(SOLD.db.keys, SOLD.db.configs, 0) == [KeyRow(0, 0, false)];
    assert SOLD.db.configs[..0] == [] && MaxVersion(SOLD.db.configs, 0) == 1;
    assert AddCount(SOLD.db.servers, 1, 1) == [Counting(1), Counting(1), REALITY];
    assert DropCount([Counting(1), Counting(1), REALITY], 0) == ARRIVED.servers;
    assert SOLD.db.subs[0 := SubOn(1, Active)] == ARRIVED.subs;
    assert Reassign(SOLD.db, 0, 0, 1, Credential(1)).value.keys == ARRIVED.keys;
    assert Reassign(SOLD.db, 0, 0, 1, Credential(1)).value.configs == ARRIVED.configs;
  }

  lemma GoneIsDeleted()
    ensures SoftDelete(ARRIVED, 0) == GONE && IsScan(ARRIVED, 0, [1, 0])
    ensures DeletionTarget(ARRIVED, 0, [1, 0]) == Some(0)
  {
    assert Revoke(ARRIVED.keys, ARRIVED.configs, 0) == [KeyRow(0, 0, false), KeyRow(1, 1, false)];
    assert [1, 0][..1] == [1] && [1][..0] == [];
    assert Picked(ARRIVED.keys, [1]) == Credential(1);
    assert Picked(ARRIVED.keys, [1, 0]) == Credential(0);
  }

  lemma Removal()
    ensures Legal(MOVING, REMOVAL)
    ensures Run(MOVING, REMOVAL) == World(GONE, {(1, VlessReality, 1)}, map[], 2)
  {
    ArrivalCommits();
    GoneIsDeleted();
    hide CommitDb, SoftDelete, IsScan, DeletionTarget, Picked;
    var v1 := MOVING.(db := ARRIVED, procs := map[1 := Remove(0, VlessReality, Some(0))]);
    var v2 := v1.(installed := {(1, VlessReality, 1)}, procs := map[]);
    var v3 := v2.(db := GONE, procs := map[2 := Remove(1, VlessReality, Some(0))]);
    var v4 := v3.(procs := map[]);
    Next(MOVING, [], MOVING, Commit(1), v1);
    assert v1.installed - {(0, VlessReality, 0)} == v2.installed && v1.procs - {1} == map[];
    Next(MOVING, [] + [Commit(1)], v1, RemoveOk(1), v2);
    assert Do(v2, Delete(2, 7, 0, [1, 0])) == v3;
    Next(MOVING, [] + [Commit(1)] + [RemoveOk(1)], v2, Delete(2, 7, 0, [1, 0]), v3);
    assert v3.installed - {(1, VlessReality, 0)} == v4.installed && v3.procs - {2} == map[];
    Next(MOVING, [] + [Commit(1)] + [RemoveOk(1)] + [Delete(2, 7, 0, [1, 0])], v3, RemoveOk(2), v4);
    assert REMOVAL == [] + [Commit(1)] + [RemoveOk(1)] + [Delete(2, 7, 0, [1, 0])] + [RemoveOk(2)];
  }

  /**
   * A migrated subscription is deleted, all removals succeed and nothing is under way any more, and still the
   * client with the last credential is on its node.
   */
  lemma DeletedButInstalled()
    ensures var steps := SALE + DEPARTURE + REMOVAL;
            && Initial(FRESH) && Legal(FRESH, steps)
            && var v := Run(FRESH, steps);
               && IsDeleted(v, 0) && v.procs == map[] && |v.db.keys| == 2
               && v.db.keys[1].server == 1 && Cred(v.db.keys[1].material) == Some(1)
               && (1, VlessReality, 1) in v.installed
  {
    UntilMoving();
    Removal();
    Continue(FRESH, SALE + DEPARTURE, MOVING, REMOVAL, World(GONE, {(1, VlessReality, 1)}, map[], 2));
  }

  // A deletion comes before the move commits

  const REVIVAL: seq<Step> := [Delete(2, 7, 0, [0]), Commit(1)]

  /** A deleted subscription becomes active again. */
  lemma DeletedAndRevived()
    ensures var before, steps := SALE + DEPARTURE + [Delete(2, 7, 0, [0])], SALE + DEPARTURE + REVIVAL;
            && Initial(FRESH) && Legal(FRESH, before) && Legal(FRESH, steps)
            && IsDeleted(Run(FRESH, before), 0)
            && Run(FRESH, steps).db.subs == [SubOn(1, Active)]
  {
    var deleted := Db([Counting(0), REALITY, REALITY], [SubOn(0, Deleted)], [Config(0, 1)], [KeyRow(0, 0, false)]);
    var p := MOVING.procs[1];
    var v1 := MOVING.(db := deleted, procs := map[1 := p, 2 := Remove(0, VlessReality, Some(0))]);
    UntilMoving();
    assert Revoke(SOLD.db.keys, SOLD.db.configs, 0) == [KeyRow(0, 0, false)];
    assert [0][..0] == [] && Picked(SOLD.db.keys, [0]) == Credential(0);
    assert SoftDelete(SOLD.db, 0) == deleted;
    assert IsScan(SOLD.db, 0, [0]) && DeletionTarget(SOLD.db, 0, [0]) == Some(0);
    assert Do(MOVING, Delete(2, 7, 0, [0])) == v1;
    Next(FRESH, SALE + DEPARTURE, MOVING, Delete(2, 7, 0, [0]), v1);
    assert Reassign(deleted, 0, 0, 1, Credential(1)).Some?;
    RunAppend(FRESH, SALE + DEPARTURE + [Delete(2, 7, 0, [0])], Commit(1));
    assert SALE + DEPARTURE + REVIVAL == SALE + DEPARTURE + [Delete(2, 7, 0, [0])] + [Commit(1)];
  }

  // A second operation moves the same subscription

  const RACE: seq<Step> := [BeginMove(2, 0, 0, 2, Some(0)), AddOk(2), Commit(1), Commit(2)]

  const FIRST: Proc := Issue(Move(0, 0, Some(0)), VlessReality, 1, Credential(1), true)
  const SECOND: Proc := Issue(Move(0, 0, Some(0)), VlessReality, 2, Credential(2), true)
  const REMOVING: Proc := Remove(0, VlessReality, Some(0))

  /** Both operations have provisioned their servers. */
  const RACING: World := MOVING.(
    installed := MOVING.installed + {(2, VlessReality, 2)}, procs := map[1 := FIRST, 2 := SECOND], next := 3)

  lemma RaceBegins()
    ensures Legal(MOVING, [BeginMove(2, 0, 0, 2, Some(0)), AddOk(2)])
    ensures Run(MOVING, [BeginMove(2, 0, 0, 2, Some(0)), AddOk(2)]) == RACING
  {
    var begun := MOVING.(procs := map[1 := FIRST, 2 := SECOND.(provisioned := false)], next := 3);
    Next(MOVING, [], MOVING, BeginMove(2, 0, 0, 2, Some(0)), begun);
    Next(MOVING, [] + [BeginMove(2, 0, 0, 2, Some(0))], begun, AddOk(2), RACING);
    assert [] + [BeginMove(2, 0, 0, 2, Some(0))] + [AddOk(2)] == [BeginMove(2, 0, 0, 2, Some(0)), AddOk(2)];
  }

  lemma RaceEnds()
    ensures Legal(RACING, [Commit(1), Commit(2)])
    ensures Run(RACING, [Commit(1), Commit(2)]).db == TWICE
  {
    var v1 := RACING.(db := ARRIVED, procs := map[1 := REMOVING, 2 := SECOND]);
    var v2 := v1.(db := TWICE, procs := map[1 := REMOVING, 2 := REMOVING]);
    ArrivalCommits();
    DoubleMove();
    hide VpnTables.Reassign;
    Next(RACING, [], RACING, Commit(1), v1);
    Next(RACING, [] + [Commit(1)], v1, Commit(2), v2);
    assert [] + [Commit(1)] + [Commit(2)] == [Commit(1), Commit(2)];
  }

  /** Two migrations of one subscription at once leave a server with a client too many. */
  lemma CountsDrift()
    ensures var steps := SALE + DEPARTURE + RACE;
            && Initial(FRESH) && LoadExact(FRESH.db) && Legal(FRESH, steps)
            && !LoadExact(Run(FRESH, steps).db)
            && TotalCount(Run(FRESH, steps).db.servers) == 2 && LiveSubs(Run(FRESH, steps).db.subs) == 1
  {
    UntilMoving();
    RaceBegins();
    RaceEnds();
    DoubleMove();
    InitialInv(FRESH);
    hide Legal, Run, LoadExact;
    var start, finish := [BeginMove(2, 0, 0, 2, Some(0)), AddOk(2)], [Commit(1), Commit(2)];
    assert RACE == start + finish;
    RunConcat(MOVING, start, finish);
    RunConcat(FRESH, SALE + DEPARTURE, RACE);
  }

  const TWICE: Db := Db(
    [Counting(0), Counting(1), Counting(1)], [SubOn(2, Active)], [Config(0, 1), Config(0, 2), Config(0, 3)],
    [KeyRow(0, 0, false), KeyRow(1, 1, false), KeyRow(2, 2, true)])

  lemma DoubleMove()
    ensures Reassign(ARRIVED, 0, 0, 2, Credential(2)) == Some(TWICE)
    ensures !LoadExact(TWICE) && TotalCount(TWICE.servers) == 2 && LiveSubs(TWICE.subs) == 1
  {
    assert Revoke(ARRIVED.keys, ARRIVED.configs, 0) == [KeyRow(0, 0, false), KeyRow(1, 1, false)];
    assert ARRIVED.configs[..1] == [Config(0, 1)] && [Config(0, 1)][..0] == [];
    assert MaxVersion([Config(0, 1)], 0) == 1 && MaxVersion(ARRIVED.configs, 0) == 2;
    assert AddCount(ARRIVED.servers, 2, 1) == TWICE.servers && DropCount(TWICE.servers, 0) == TWICE.servers;
    assert ARRIVED.subs[0 := SubOn(2, Active)] == TWICE.subs;
    assert Reassign(ARRIVED, 0, 0, 2, Credential(2)).value.keys == TWICE.keys;
    assert Reassign(ARRIVED, 0, 0, 2, Credential(2)).value.configs == TWICE.configs;
    assert TWICE.subs[..0] == [] && Load(TWICE.subs, 1) == 0;
    assert TWICE.servers[..2] == [Counting(0), Counting(1)] && [Counting(0), Counting(1)][..1] == [Counting(0)];
    assert [Counting(0)][..0] == [];
    assert TotalCount([Counting(0), Counting(1)]) == 1;
  }

  // The preferred reserve server is full

  const NARROW: Prefix := Prefix(0x0A09_0000, 30)
  const WIDE: Prefix := Prefix(0x0A0A_0000, 24)

  function Reserve(priority: int, count: int, subnet: Prefix): Server {
    Server(0, Serving, true, priority, count, Some(subnet), {WgPort, WgPublicKey})
  }

  /** Server 1 has one host address, which its subscription holds; server 2 has hundreds and none in use. */
  const CROWDED: Db := Db(
    [Reserve(0, 1, WIDE), Reserve(0, 1, NARROW), Reserve(1, 0, WIDE)],
    [Sub(7, 0, 0, WireGuard, Active, 100), Sub(8, 1, 0, WireGuard, Active, 100)],
    [Config(0, 1), Config(1, 1)],
    [Key(0, 0, Material(Some(0), None, Some(0x0A0A_0002)), true),
     Key(1, 1, Material(Some(1), None, Some(0x0A09_0002)), true)])

  lemma Subnets()
    ensures ValidPrefix(NARROW) && ValidPrefix(WIDE)
    ensures forall a: u32 :: IsHost(NARROW, a) <==> a == 0x0A09_0002
    ensures IsHost(WIDE, 0x0A0A_0002)
  {
    LowClearIsMultiple(0x0A09_0000, 2);
    LowClearIsMultiple(0x0A0A_0000, 8);
    assert Pow2(2) == 4 && Pow2(8) == 0x100;
  }

  /**
   * A subscription of server 0 is not moved, because the preferred reserve server is full, although another
   * candidate could take it.
   */
  lemma SkippedDespiteRoom(w: World)
    requires w.db == CROWDED
    ensures IsBest(CROWDED.servers, 1, 0, WireGuard, true, Some(0)) && CannotGive(CROWDED, 1, WireGuard)
    ensures Candidate(CROWDED.servers, 2, 0, WireGuard, Some(0)) && !CannotGive(CROWDED, 2, WireGuard)
    ensures NoServer(w, w, 0, WireGuard, true, Some(0))
  {
    Subnets();
    assert AddressUsed(CROWDED.keys, 1, 0x0A09_0002) by {
      assert CROWDED.keys[1].material.ip == Some(0x0A09_0002);
    }
    assert !AddressUsed(CROWDED.keys, 2, 0x0A0A_0002);
  }
}

/** Which credential a deletion withdraws from the node, given that its query fixes no row order. */
module VpnDeletion {
  import opened Subscriptions
  import opened VpnTables
  import opened VpnProtocol

  lemma {:induction false} PickedFirst(keys: seq<Key>, scan: seq<nat>)
    requires scan != [] && forall i :: 0 <= i < |scan| ==> scan[i] < |keys| && keys[scan[i]].material.publicKey.Some?
    ensures Picked(keys, scan) == keys[scan[0]].material
  {
    if |scan| > 1 {
      PickedFirst(keys, scan[..|scan| - 1]);
    } else {
      assert scan[..0] == [];
    }
  }

  lemma {:induction false} PickedLast(keys: seq<Key>, scan: seq<nat>)
    requires scan != [] && forall i :: 0 <= i < |scan| ==> scan[i] < |keys| && keys[scan[i]].material.publicKey.None?
    ensures Picked(keys, scan) == keys[scan[|scan| - 1]].material
  {
    if |scan| > 1 {
      PickedLast(keys, scan[..|scan| - 1]);
    } else {
      assert scan[..0] == [];
    }
  }

  /** The row that decides: the first one for WireGuard, the last one for the other protocols. */
  function DecidingRow(protocol: Protocol, scan: seq<nat>): nat
    requires scan != []
  {
    if protocol == WireGuard then scan[0] else scan[|scan| - 1]
  }

  lemma ScanNotEmpty(db: Db, sub: nat, scan: seq<nat>, k: nat)
    requires IsScan(db, sub, scan) && KeyOf(db, k, sub)
    ensures scan != []
  {
    assert k in scan;
  }

  /** A deletion withdraws the live credential exactly when the deciding row is the live key. */
  lemma DeletionTargetOfScan(w: World, sub: nat, scan: seq<nat>, live: nat)
    requires Inv(w) && sub < |w.db.subs| && IsScan(w.db, sub, scan) && ActiveKeyOf(w.db, live, sub)
    ensures scan != []
    ensures DeletionTarget(w.db, sub, scan) == Cred(w.db.keys[live].material)
            <==> DecidingRow(w.db.subs[sub].protocol, scan) == live
  {
    var keys, protocol := w.db.keys, w.db.subs[sub].protocol;
    ScanNotEmpty(w.db, sub, scan, live);
    forall i | 0 <= i < |scan|
      ensures scan[i] < |keys| && Shaped(protocol, keys[scan[i]].material)
    {
      assert KeyOf(w.db, scan[i], sub);
    }
    if protocol == WireGuard {
      PickedFirst(keys, scan);
    } else {
      PickedLast(keys, scan);
    }
    var row := DecidingRow(protocol, scan);
    assert row < live || row == live || live < row;
  }

  /** The key rows of a subscription below n, without row j. */
  ghost function RowsExcept(db: Db, sub: nat, j: nat, n: nat): seq<nat> {
    if n == 0 then []
    else RowsExcept(db, sub, j, n - 1) + if n - 1 != j && KeyOf(db, n - 1, sub) then [n - 1] else []
  }

  ghost predicate AscendingBelow(rows: seq<nat>, n: nat, j: nat) {
    && (forall a :: 0 <= a < |rows| ==> rows[a] < n && rows[a] != j)
    && (forall a, b :: 0 <= a < b < |rows| ==> rows[a] < rows[b])
  }

  lemma {:induction false} RowsExceptMeans(db: Db, sub: nat, j: nat, n: nat)
    ensures forall k: nat :: k in RowsExcept(db, sub, j, n) <==> k < n && k != j && KeyOf(db, k, sub)
    ensures AscendingBelow(RowsExcept(db, sub, j, n), n, j)
  {
    if n > 0 {
      RowsExceptMeans(db, sub, j, n - 1);
      var init := RowsExcept(db, sub, j, n - 1);
      assert AscendingBelow(init, n, j);
      assert n - 1 != j ==> AscendingBelow(init + [n - 1], n, j);
    }
  }

  /** Any key row of the subscription can come first, and any can come last. */
  lemma ScanWithEnd(db: Db, sub: nat, j: nat, first: bool) returns (scan: seq<nat>)
    requires KeyOf(db, j, sub)
    ensures IsScan(db, sub, scan) && scan != [] && scan[if first then 0 else |scan| - 1] == j
  {
    var rest := RowsExcept(db, sub, j, |db.keys|);
    RowsExceptMeans(db, sub, j, |db.keys|);
    scan := if first then [j] + rest else rest + [j];
    forall i | 0 <= i < |rest| ensures KeyOf(db, rest[i], sub) {
      assert rest[i] in rest;
    }
    forall a, b | 0 <= a < b < |scan| ensures scan[a] != scan[b] {
      if first {
        assert scan[b] == rest[b - 1];
        assert a > 0 ==> scan[a] == rest[a - 1];
      } else {
        assert scan[a] == rest[a];
        assert b < |rest| ==> scan[b] == rest[b];
      }
    }
    forall k: nat | KeyOf(db, k, sub) ensures k in scan {
      assert k == j || k in rest;
    }
  }

  /**
   * Whatever order the rows come in, a deletion withdraws the live credential: this holds if and only if
   * the subscription was never migrated.
   */
  lemma DeletionIsSureIffNeverMigrated(w: World, sub: nat, live: nat)
    requires Inv(w) && sub < |w.db.subs| && ActiveKeyOf(w.db, live, sub)
    ensures (forall scan :: IsScan(w.db, sub, scan) ==>
                              DeletionTarget(w.db, sub, scan) == Cred(w.db.keys[live].material))
            <==> NumConfigs(w.db.configs, sub) == 1
  {
    var protocol := w.db.subs[sub].protocol;
    if NumConfigs(w.db.configs, sub) == 1 {
      forall scan | IsScan(w.db, sub, scan)
        ensures DeletionTarget(w.db, sub, scan) == Cred(w.db.keys[live].material)
      {
        DeletionTargetOfScan(w, sub, scan, live);
        OnlyConfig(w.db, sub, live, DecidingRow(protocol, scan));
      }
    } else {
      var j := ConfigAtRank(w.db.configs, sub, 1);
      LiveIsLast(w.db, sub, live);
      var scan := ScanWithEnd(w.db, sub, j, protocol == WireGuard);
      DeletionTargetOfScan(w, sub, scan, live);
    }
  }

  lemma OnlyConfig(db: Db, sub: nat, live: nat, row: nat)
    requires Consistent(db) && NumConfigs(db.configs, sub) == 1
    requires ActiveKeyOf(db, live, sub) && KeyOf(db, row, sub)
    ensures row == live
  {
    VersionBound(db.configs, row);
    VersionBound(db.configs, live);
    if row < live {
      RanksDiffer(db.configs, row, live);
    } else if live < row {
      RanksDiffer(db.configs, live, row);
    }
  }

  lemma LiveIsLast(db: Db, sub: nat, live: nat)
    requires Consistent(db) && ActiveKeyOf(db, live, sub)
    ensures db.configs[live].version == NumConfigs(db.configs, sub) >= 1
  {
    assert db.keys[live].active <==> LiveConfig(db, live);
  }
}

/**
 * DestroyDB: the pg_class rows of a database that describe user tables, whose storage the
 * catalog must free itself because it holds no reference to them.
 */
module DatabaseDestroy {
  import opened Wrappers
  import opened Values
  import opened CatalogRows
  import opened Directory
  import opened CatalogState
  import opened DatabaseBootstrap
  import opened TypeCatalog

  /** DestroyDB finds `db`'s pg_class and, through its pg_namespace, the oid of pg_catalog. */
  ghost predicate DestroyReady(s: State, db: nat)
  {
    Registered(s, db, "pg_class") && Found(s, db, "pg_class") in s.storage && TypesReady(s, db)
  }

  /** The rows of `db`'s pg_class. */
  ghost function ClassRowsOf(s: State, db: nat): seq<Row>
    requires DestroyReady(s, db)
  {
    s.storage[Found(s, db, "pg_class")]
  }

  /** DestroyDB's test for one row, as the scan reads it: the namespace column and the address column. */
  predicate UserTableRow(row: Row, catalogNs: int)
  {
    |row| > 3 && row[3] != Int(catalogNs) && row[0].Address?
  }

  /**
   * The addresses DestroyDB frees, in pg_class order: an address is listed exactly when some
   * row outside the pg_catalog namespace holds it.
   */
  function Reclaimed(rows: seq<Row>, catalogNs: int): (r: seq<nat>)
    ensures forall a :: a in r <==> ReclaimedBy(rows, catalogNs, a)
    ensures |r| <= |rows|
  {
    if rows == [] then []
    else
      var init, last := rows[..|rows| - 1], rows[|rows| - 1];
      var r := Reclaimed(init, catalogNs) + (if UserTableRow(last, catalogNs) then [last[0].addr] else []);
      assert forall a :: ReclaimedBy(init, catalogNs, a) ==> ReclaimedBy(rows, catalogNs, a) by {
        forall a | ReclaimedBy(init, catalogNs, a)
          ensures ReclaimedBy(rows, catalogNs, a)
        {
          var i :| 0 <= i < |init| && Reclaims(init[i], catalogNs, a);
          assert rows[i] == init[i];
        }
      }
      assert forall a :: ReclaimedBy(rows, catalogNs, a) ==>
               ReclaimedBy(init, catalogNs, a) || Reclaims(last, catalogNs, a) by {
        forall a | ReclaimedBy(rows, catalogNs, a)
          ensures ReclaimedBy(init, catalogNs, a) || Reclaims(last, catalogNs, a)
        {
          var i :| 0 <= i < |rows| && Reclaims(rows[i], catalogNs, a);
          if i < |init| {
            assert init[i] == rows[i];
          }
        }
      }
      r
  }

  /** The tuples one Scan fills DestroyDB's buffer with: it is sized for 100 of them. */
  const SCAN_BATCH: nat := 100

  /** The pg_class rows DestroyDB's single Scan delivers: the first SCAN_BATCH, or all when fewer. */
  function Scanned(rows: seq<Row>): (r: seq<Row>)
    ensures |r| <= SCAN_BATCH && |r| <= |rows| && r == rows[..|r|]
    ensures |rows| <= SCAN_BATCH ==> r == rows
    ensures |rows| > SCAN_BATCH ==> |r| == SCAN_BATCH
  {
    if |rows| <= SCAN_BATCH then rows else rows[..SCAN_BATCH]
  }

  /**
   * The loop of DestroyDB over the tuples from position `from` up to `to`: each row outside
   * pg_catalog adds its address to what was freed before.
   */
  method ScanRows(rows: seq<Row>, from: nat, to: nat, catalogNs: int, freed: seq<nat>) returns (r: seq<nat>)
    requires from <= to <= |rows| && freed == Reclaimed(rows[..from], catalogNs)
    ensures r == Reclaimed(rows[..to], catalogNs)
  {
    r := freed;
    var i := from;
    while i < to
      invariant from <= i <= to
      invariant r == Reclaimed(rows[..i], catalogNs)
    {
      var row := rows[i];
      if |row| > 3 && row[3] != Int(catalogNs) && row[0].Address? {
        r := r + [row[0].addr];
      }
      assert rows[..i + 1][..i] == rows[..i];
      i := i + 1;
    }
  }

  /**
   * A database BootstrapDatabase has just made can be destroyed, and DestroyDB frees none of
   * its relations: they all lie in pg_catalog.
   */
  lemma BootstrapDatabaseFreesNothing(s: State, db: nat)
    requires ReadyFor(s, db)
    ensures var r := BootstrapDatabase(s, db);
            && DestroyReady(r, db) && Reclaimed(ClassRowsOf(r, db), PgCatalog(r, db)) == []
            && Scanned(ClassRowsOf(r, db)) == ClassRowsOf(r, db)
  {
    BootstrapDatabaseFinds(s, db);
    BootstrapDatabaseShape(s, db);
    FreesNothingCompose(s, db, BootstrapDatabase(s, db));
  }

  /** The same, over any state whose storage and lookups are those BootstrapDatabase leaves. */
  lemma FreesNothingCompose(s: State, db: nat, r: State)
    requires GlobalsStored(s) && r.storage == DatabaseStorage(s)
    requires Finds(r, db, "pg_namespace", s.nextAddr + 1) && Finds(r, db, "pg_class", s.nextAddr + 2)
    ensures DestroyReady(r, db) && Reclaimed(ClassRowsOf(r, db), PgCatalog(r, db)) == []
    ensures Scanned(ClassRowsOf(r, db)) == ClassRowsOf(r, db)
  {
    var a := s.nextAddr;
    assert r.storage[a + 1] == DatabaseNamespaceRows(s.nextOid);
    assert r.storage[a + 2] == DatabaseClassRows(s);
    PgCatalogOid(s.nextOid);
    ClassRowsFreeNothing(s);
  }

  /** pg_class as BootstrapDatabase fills it frees nothing: every row is in pg_catalog. */
  lemma ClassRowsFreeNothing(s: State)
    requires GlobalsStored(s)
    ensures Reclaimed(DatabaseClassRows(s), s.nextOid + 10) == []
  {
    var freed := Reclaimed(DatabaseClassRows(s), s.nextOid + 10);
    if freed != [] {
      CatalogRowsKept(DatabaseClassRows(s), s.nextOid + 10, freed[0]);
    }
  }

  /**
   * Next to rows in the pg_catalog namespace, a row for a table in another namespace makes
   * DestroyDB free that table, and it alone.
   */
  lemma {:induction false} UserTableFreed(system: seq<Row>, catalogNs: int, user: nat, oid: nat, name: string, nsOid: int, tsOid: int)
    requires forall i :: 0 <= i < |system| ==> |system[i]| > 3 && system[i][3] == Int(catalogNs)
    requires nsOid != catalogNs
    ensures Reclaimed(system + [ClassRow(user, oid, name, nsOid, tsOid)], catalogNs) == [user]
  {
    var rows := system + [ClassRow(user, oid, name, nsOid, tsOid)];
    assert rows[..|rows| - 1] == system;
    var kept := Reclaimed(system, catalogNs);
    if kept != [] {
      CatalogRowsKept(system, catalogNs, kept[0]);
    }
  }

  /** The same within DestroyDB's single scan: a user table among fewer than SCAN_BATCH rows is freed. */
  lemma UserTableFreedInBatch(system: seq<Row>, catalogNs: int, user: nat, oid: nat, name: string, nsOid: int, tsOid: int)
    requires |system| < SCAN_BATCH
    requires forall i :: 0 <= i < |system| ==> |system[i]| > 3 && system[i][3] == Int(catalogNs)
    requires nsOid != catalogNs
    ensures Reclaimed(Scanned(system + [ClassRow(user, oid, name, nsOid, tsOid)]), catalogNs) == [user]
  {
    UserTableFreed(system, catalogNs, user, oid, name, nsOid, tsOid);
  }

  /**
   * A user table listed after SCAN_BATCH rows of pg_catalog relations: the complete filter
   * frees it, but DestroyDB's single scan never reaches its row, so the table is never freed.
   */
  lemma LateUserTableLeaks(system: seq<Row>, catalogNs: int, user: nat, oid: nat, name: string, nsOid: int, tsOid: int)
    requires |system| >= SCAN_BATCH
    requires forall i :: 0 <= i < |system| ==> |system[i]| > 3 && system[i][3] == Int(catalogNs)
    requires nsOid != catalogNs
    ensures var rows := system + [ClassRow(user, oid, name, nsOid, tsOid)];
            Reclaimed(rows, catalogNs) == [user] && Reclaimed(Scanned(rows), catalogNs) == []
  {
    UserTableFreed(system, catalogNs, user, oid, name, nsOid, tsOid);
    var scanned := Scanned(system + [ClassRow(user, oid, name, nsOid, tsOid)]);
    assert forall i :: 0 <= i < |scanned| ==> scanned[i] == system[i];
    var freed := Reclaimed(scanned, catalogNs);
    if freed != [] {
      CatalogRowsKept(scanned, catalogNs, freed[0]);
    }
  }
}

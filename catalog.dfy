/**
 * The Catalog object itself: the oid counter, the catalog tables, the two directories and
 * the global relations as fields its methods update in place. Every method is proved to
 * leave the catalog in the state its specification in CatalogState, BootstrapSteps,
 * DatabaseBootstrap, DatabaseOps or TypeCatalog gives for the state it started from.
 */
module SystemCatalog {
  import opened Wrappers
  import opened Values
  import opened Oids
  import opened Fillers
  import opened CatalogRows
  import opened Directory
  import opened CatalogState
  import opened BootstrapSteps
  import opened DatabaseBootstrap
  import opened DatabaseOps
  import opened TypeCatalog
  import opened DatabaseDestroy

  /** GetDatabaseCatalog(db, name) finds a table that exists. */
  ghost predicate Resolves(s: State, db: nat, name: string)
  {
    Registered(s, db, name) && Found(s, db, name) in s.tables
  }

  /** The five relations CreatePGClass describes in pg_class are found by name and exist. */
  ghost predicate ClassEntriesReady(s: State, db: nat)
  {
    && Resolves(s, db, "pg_database") && Resolves(s, db, "pg_tablespace") && Resolves(s, db, "pg_namespace")
    && Resolves(s, db, "pg_class") && Resolves(s, db, "pg_attribute")
  }

  class Catalog {
    /** The filler columns of pg_database, pg_tablespace and pg_type (static lists in the source). */
    const fillers: FillerCols
    /** oid_: the next oid GetNextOid hands out. */
    var nextOid: nat
    /** Every oid GetNextOid has handed out, in order. */
    ghost var issued: seq<nat>
    /** The catalog tables by address: their oids and schemas. */
    var tables: map<nat, Table>
    /** The rows of each catalog table, by address. */
    var storage: map<nat, seq<Row>>
    /** The address the next table is made at. */
    var nextAddr: nat
    /** map_: database oid -> table oid -> table. */
    var tableMap: TableDirectory
    /** name_map_: database oid -> table name -> table oid. */
    var nameMap: NameDirectory
    /** pg_database_ and pg_tablespace_. */
    var pgDatabase: nat
    var pgTablespace: nat

    /** The catalog's state as a value. */
    ghost function Snapshot(): State
      reads this
    {
      State(fillers, nextOid, issued, tables, storage, nextAddr, tableMap, nameMap, pgDatabase, pgTablespace)
    }

    // -------------------------------------------------------------------------------------
    // Primitive steps: the oid counter and the table operations the catalog relies on.

    /** GetNextOid: `oid_++`. */
    method GetNextOid() returns (oid: nat)
      modifies this
      ensures oid == old(nextOid)
      ensures Snapshot() == Issue(old(Snapshot()))
    {
      oid := nextOid;
      issued := issued + [nextOid];
      nextOid := nextOid + 1;
    }

    /** make_shared<SqlTableRW>(oid): a table with no columns and no rows at the next address. */
    method NewTable(oid: nat) returns (addr: nat)
      modifies this
      ensures addr == old(nextAddr)
      ensures Snapshot() == AddTable(old(Snapshot()), oid)
    {
      addr := nextAddr;
      tables := tables[addr := Table(oid, [])];
      storage := storage[addr := []];
      nextAddr := nextAddr + 1;
    }

    /** SqlTableRW::DefineColumn on the table at `addr`. */
    method DefineColumn(addr: nat, c: Column)
      requires addr in tables
      modifies this
      ensures Snapshot() == WithColumns(old(Snapshot()), addr, [c])
    {
      tables := tables[addr := Table(tables[addr].oid, tables[addr].columns + [c])];
    }

    /** SqlTableRW::InsertRow on the table at `addr`. */
    method InsertRow(addr: nat, row: Row)
      requires addr in storage
      modifies this
      ensures Snapshot() == WithRows(old(Snapshot()), addr, [row])
    {
      storage := storage[addr := storage[addr] + [row]];
    }

    /** `map_[db][oid] = table` and `name_map_[db][name] = oid` for the table at `addr`. */
    method RegisterTable(db: nat, name: string, addr: nat)
      requires addr in tables
      modifies this
      ensures Snapshot() == Register(old(Snapshot()), db, name, addr)
    {
      var oid := tables[addr].oid;
      tableMap := tableMap[db := Inner(tableMap, db)[oid := addr]];
      nameMap := nameMap[db := Inner(nameMap, db)[name := oid]];
    }

    // -------------------------------------------------------------------------------------
    // Columns and their descriptions.

    /** AddUnusedSchemaColumns: one non-nullable column per descriptor, each under the next oid. */
    method AddUnusedSchemaColumns(addr: nat, cols: seq<SchemaCol>)
      requires addr in tables
      modifies this
      ensures Snapshot() == DefineFresh(old(Snapshot()), addr, cols)
    {
      ghost var s0 := Snapshot();
      assert Snapshot() == DefineFresh(s0, addr, cols[..0]) by {
        assert s0.issued + Consecutive(s0.nextOid, 0) == s0.issued;
        assert s0.tables[addr].columns + NewColumns([], s0.nextOid) == s0.tables[addr].columns;
        assert s0.tables[addr := s0.tables[addr]] == s0.tables;
      }
      var i := 0;
      while i < |cols|
        invariant 0 <= i <= |cols|
        invariant Snapshot() == DefineFresh(s0, addr, cols[..i])
      {
        var oid := GetNextOid();
        DefineColumn(addr, Column(cols[i].name, cols[i].typeId, false, oid));
        DefineFreshStep(s0, addr, cols, i);
        i := i + 1;
      }
      assert cols[..i] == cols;
    }

    /** DefineColumn once per column of `cs`, in order. */
    method DefineColumns(addr: nat, cs: seq<Column>)
      requires addr in tables
      modifies this
      ensures Snapshot() == WithColumns(old(Snapshot()), addr, cs)
    {
      ghost var s0 := Snapshot();
      assert Snapshot() == WithColumns(s0, addr, cs[..0]) by {
        assert s0.tables[addr].columns + [] == s0.tables[addr].columns;
        assert s0.tables[addr := s0.tables[addr]] == s0.tables;
      }
      var i := 0;
      while i < |cs|
        invariant 0 <= i <= |cs|
        invariant Snapshot() == WithColumns(s0, addr, cs[..i])
      {
        DefineColumn(addr, cs[i]);
        WithColumnsSnoc(s0, addr, cs[..i], cs[i]);
        assert cs[..i] + [cs[i]] == cs[..i + 1];
        i := i + 1;
      }
      assert cs[..i] == cs;
    }

    /**
     * AddColumnsToPGAttribute(db, table): one pg_attribute row per column of the table at
     * `addr`, in schema order, into the pg_attribute `db` finds by name.
     */
    method AddColumnsToPGAttribute(db: nat, addr: nat)
      requires CanDescribe(Snapshot(), db, addr)
      modifies this
      ensures Snapshot() == Describe(old(Snapshot()), db, addr)
    {
      ghost var s0 := Snapshot();
      var attr := Directory.GetDatabaseCatalogByName(tableMap, nameMap, db, "pg_attribute").value;
      var tableOid, cols := tables[addr].oid, tables[addr].columns;
      assert Snapshot() == WithRows(s0, attr, AttributeRows(tableOid, cols[..0])) by {
        assert s0.storage[attr] + [] == s0.storage[attr];
        assert s0.storage[attr := s0.storage[attr]] == s0.storage;
      }
      var i := 0;
      while i < |cols|
        invariant 0 <= i <= |cols|
        invariant Snapshot() == WithRows(s0, attr, AttributeRows(tableOid, cols[..i]))
      {
        InsertRow(attr, [Int(cols[i].oid), Int(tableOid), Str(cols[i].name), Int(0), Int(0), Int(0)]);
        WithRowsSnoc(s0, attr, AttributeRows(tableOid, cols[..i]), AttributeRow(cols[i], tableOid));
        AttributeRowsSnoc(tableOid, cols, i);
        i := i + 1;
      }
      assert cols[..i] == cols;
    }

    /**
     * A catalog handle's Create (NamespaceHandle, ClassHandle, AttrDefHandle): a fresh oid, a
     * new table under it, its columns under the next oids, and its registration under `db`.
     */
    method CreateHandleTable(db: nat, name: string, cols: seq<SchemaCol>) returns (addr: nat)
      modifies this
      ensures addr == old(nextAddr)
      ensures Snapshot() == HandleTable(old(Snapshot()), db, name, cols)
    {
      var oid := GetNextOid();
      addr := NewTable(oid);
      AddUnusedSchemaColumns(addr, cols);
      RegisterTable(db, name, addr);
    }

    // -------------------------------------------------------------------------------------
    // The global relations.

    /** CreatePGDatabase(table_oid): pg_database with its used and filler columns, and map_[terrier]. */
    method CreatePGDatabase(tableOid: nat)
      modifies this
      ensures Snapshot() == BootstrapSteps.CreatePGDatabase(old(Snapshot()), tableOid)
    {
      var addr := NewTable(tableOid);
      AddUnusedSchemaColumns(addr, DATABASE_SCHEMA_COLS);
      AddUnusedSchemaColumns(addr, fillers.database);
      pgDatabase := addr;
      tableMap := tableMap[DEFAULT_DATABASE_OID := map[]];
    }

    /** PopulatePGDatabase: the row of the default database "terrier". */
    method PopulatePGDatabase()
      requires Supported(fillers.database) && pgDatabase in storage
      modifies this
      ensures Snapshot() == BootstrapSteps.PopulatePGDatabase(old(Snapshot()))
    {
      var row := SetUnusedColumns([Int(DEFAULT_DATABASE_OID), Str(DEFAULT_DATABASE_NAME)], fillers.database);
      InsertRow(pgDatabase, row.value);
    }

    /** CreatePGTablespace(table_oid): pg_tablespace with oid and spcname, then its filler columns. */
    method CreatePGTablespace(tableOid: nat)
      modifies this
      ensures Snapshot() == BootstrapSteps.CreatePGTablespace(old(Snapshot()), tableOid)
    {
      var addr := NewTable(tableOid);
      AddUnusedSchemaColumns(addr, TABLESPACE_SCHEMA_COLS);
      AddUnusedSchemaColumns(addr, fillers.tablespace);
      pgTablespace := addr;
    }

    /** PopulatePGTablespace: two fresh oids, then the rows pg_global and pg_default. */
    method PopulatePGTablespace()
      requires Supported(fillers.tablespace) && pgTablespace in storage
      modifies this
      ensures Snapshot() == BootstrapSteps.PopulatePGTablespace(old(Snapshot()))
    {
      ghost var s0 := Snapshot();
      var globalOid := GetNextOid();
      var defaultOid := GetNextOid();
      var row := SetUnusedColumns([Int(globalOid), Str("pg_global")], fillers.tablespace);
      InsertRow(pgTablespace, row.value);
      row := SetUnusedColumns([Int(defaultOid), Str("pg_default")], fillers.tablespace);
      InsertRow(pgTablespace, row.value);
      var f := Fill(fillers.tablespace);
      assert globalOid == s0.nextOid && defaultOid == globalOid + 1;
      assert [EntryRow(globalOid, "pg_global", f)] + [EntryRow(defaultOid, "pg_default", f)] ==
             [EntryRow(globalOid, "pg_global", f), EntryRow(defaultOid, "pg_default", f)];
      WithRowsSnoc(Issue(Issue(s0)), s0.pgTablespace, [EntryRow(globalOid, "pg_global", f)], EntryRow(defaultOid, "pg_default", f));
    }

    // -------------------------------------------------------------------------------------
    // One database's catalog relations.

    /**
     * CreatePGAttribute(db): pg_attribute under a fresh oid, six column oids, its six columns,
     * its registration under `db`, and the descriptions of pg_attribute, pg_database and
     * pg_tablespace, in that order.
     */
    method CreatePGAttribute(db: nat)
      requires Inv(Snapshot()) && GlobalsRegistered(Snapshot(), db)
      modifies this
      ensures Snapshot() == BootstrapSteps.CreatePGAttribute(old(Snapshot()), db)
    {
      ghost var s0 := Snapshot();
      var attrOid := GetNextOid();
      var addr := NewTable(attrOid);
      ghost var s1 := Snapshot();
      assert IssueMany(s1, 0) == s1 by { assert s1.issued + [] == s1.issued; }
      var colOids: seq<nat> := [];
      while |colOids| < 6
        invariant |colOids| <= 6
        invariant forall j :: 0 <= j < |colOids| ==> colOids[j] == s1.nextOid + j
        invariant Snapshot() == IssueMany(s1, |colOids|)
      {
        var oid := GetNextOid();
        IssueSnoc(s1, |colOids|);
        colOids := colOids + [oid];
      }
      DefineColumns(addr, [Column("oid", Integer, false, colOids[0]), Column("attrelid", Integer, false, colOids[1]),
                           Column("attname", Varchar, false, colOids[2]), Column("atttypid", Integer, true, colOids[3]),
                           Column("attlen", Integer, true, colOids[4]), Column("attnum", Integer, true, colOids[5])]);
      RegisterTable(db, "pg_attribute", addr);
      assert Snapshot() == AttributeTable(s0, db);
      AttributeTableEffect(s0, db);
      AttributeTableKeepsLookup(s0, db, db, "pg_database");
      AttributeTableKeepsLookup(s0, db, db, "pg_tablespace");
      AddColumnsToPGAttribute(db, addr);
      var pd := Directory.GetDatabaseCatalogByName(tableMap, nameMap, db, "pg_database").value;
      AddColumnsToPGAttribute(db, pd);
      var pt := Directory.GetDatabaseCatalogByName(tableMap, nameMap, db, "pg_tablespace").value;
      AddColumnsToPGAttribute(db, pt);
    }

    /** CreatePGNameSpace(db): NamespaceHandle::Create, then the entries pg_catalog and public. */
    method CreatePGNameSpace(db: nat)
      requires Inv(Snapshot()) && Registered(Snapshot(), db, "pg_attribute")
      modifies this
      ensures Snapshot() == BootstrapSteps.CreatePGNameSpace(old(Snapshot()), db)
    {
      ghost var s0 := Snapshot();
      var ns := CreateHandleTable(db, "pg_namespace", NAMESPACE_SCHEMA_COLS);
      HandleTableEffect(s0, db, "pg_namespace", NAMESPACE_SCHEMA_COLS);
      HandleTableKeepsLookup(s0, db, "pg_namespace", NAMESPACE_SCHEMA_COLS, db, "pg_attribute");
      AddColumnsToPGAttribute(db, ns);
      ghost var s2 := Snapshot();
      var catalogOid := GetNextOid();
      InsertRow(ns, EntryRow(catalogOid, "pg_catalog", []));
      var publicOid := GetNextOid();
      InsertRow(ns, EntryRow(publicOid, "public", []));
      EntriesAfterOids(s2, ns, EntryRow(catalogOid, "pg_catalog", []), EntryRow(publicOid, "public", []));
    }

    /**
     * The five pg_class rows CreatePGClass writes: GetDatabaseCatalog(db, name) gives each
     * relation's address and oid, and ClassHandle::AddEntry appends (address, oid, name,
     * namespace, tablespace) to the pg_class at `cls`.
     */
    method AddClassEntries(cls: nat, db: nat, nsOid: int, globalOid: int, defaultOid: int)
      requires cls in storage && ClassEntriesReady(Snapshot(), db)
      modifies this
      ensures var s := old(Snapshot());
              Snapshot() == WithRows(s, cls,
                [ClassEntry(s, db, "pg_database", nsOid, globalOid), ClassEntry(s, db, "pg_tablespace", nsOid, globalOid),
                 ClassEntry(s, db, "pg_namespace", nsOid, defaultOid), ClassEntry(s, db, "pg_class", nsOid, defaultOid),
                 ClassEntry(s, db, "pg_attribute", nsOid, defaultOid)])
    {
      ghost var s0 := Snapshot();
      var pd := Directory.GetDatabaseCatalogByName(tableMap, nameMap, db, "pg_database").value;
      var pt := Directory.GetDatabaseCatalogByName(tableMap, nameMap, db, "pg_tablespace").value;
      var pn := Directory.GetDatabaseCatalogByName(tableMap, nameMap, db, "pg_namespace").value;
      var pc := Directory.GetDatabaseCatalogByName(tableMap, nameMap, db, "pg_class").value;
      var pa := Directory.GetDatabaseCatalogByName(tableMap, nameMap, db, "pg_attribute").value;
      var rows := [ClassRow(pd, tables[pd].oid, "pg_database", nsOid, globalOid),
                   ClassRow(pt, tables[pt].oid, "pg_tablespace", nsOid, globalOid),
                   ClassRow(pn, tables[pn].oid, "pg_namespace", nsOid, defaultOid),
                   ClassRow(pc, tables[pc].oid, "pg_class", nsOid, defaultOid),
                   ClassRow(pa, tables[pa].oid, "pg_attribute", nsOid, defaultOid)];
      assert rows == [ClassEntry(s0, db, "pg_database", nsOid, globalOid), ClassEntry(s0, db, "pg_tablespace", nsOid, globalOid),
                      ClassEntry(s0, db, "pg_namespace", nsOid, defaultOid), ClassEntry(s0, db, "pg_class", nsOid, defaultOid),
                      ClassEntry(s0, db, "pg_attribute", nsOid, defaultOid)];
      InsertRow(cls, rows[0]);
      assert [rows[0]] == rows[..1];
      assert Snapshot() == WithRows(s0, cls, rows[..1]);
      InsertRow(cls, rows[1]);
      WithRowsSnoc(s0, cls, rows[..1], rows[1]);
      assert rows[..1] + [rows[1]] == rows[..2];
      assert Snapshot() == WithRows(s0, cls, rows[..2]);
      InsertRow(cls, rows[2]);
      WithRowsSnoc(s0, cls, rows[..2], rows[2]);
      assert rows[..2] + [rows[2]] == rows[..3];
      assert Snapshot() == WithRows(s0, cls, rows[..3]);
      InsertRow(cls, rows[3]);
      WithRowsSnoc(s0, cls, rows[..3], rows[3]);
      assert rows[..3] + [rows[3]] == rows[..4];
      assert Snapshot() == WithRows(s0, cls, rows[..4]);
      InsertRow(cls, rows[4]);
      WithRowsSnoc(s0, cls, rows[..4], rows[4]);
      assert rows[..4] + [rows[4]] == rows[..5];
      assert Snapshot() == WithRows(s0, cls, rows[..5]);
      assert rows[..5] == rows;
    }

    /**
     * CreatePGClass(db): ClassHandle::Create, the lookups of pg_catalog, pg_global and
     * pg_default, then the five pg_class rows.
     */
    method CreatePGClass(db: nat)
      requires Inv(Snapshot()) && ClassLookupsOk(Snapshot(), db)
      modifies this
      ensures Snapshot() == BootstrapSteps.CreatePGClass(old(Snapshot()), db)
    {
      ghost var s0 := Snapshot();
      var cls := CreateHandleTable(db, "pg_class", CLASS_SCHEMA_COLS);
      HandleTableEffect(s0, db, "pg_class", CLASS_SCHEMA_COLS);
      HandleTableKeepsLookup(s0, db, "pg_class", CLASS_SCHEMA_COLS, db, "pg_database");
      HandleTableKeepsLookup(s0, db, "pg_class", CLASS_SCHEMA_COLS, db, "pg_tablespace");
      HandleTableKeepsLookup(s0, db, "pg_class", CLASS_SCHEMA_COLS, db, "pg_namespace");
      HandleTableKeepsLookup(s0, db, "pg_class", CLASS_SCHEMA_COLS, db, "pg_attribute");
      var nsAddr := Directory.GetDatabaseCatalogByName(tableMap, nameMap, db, "pg_namespace").value;
      var nsOid := LookupOid(storage[nsAddr], "pg_catalog").value;
      var globalOid := LookupOid(storage[pgTablespace], "pg_global").value;
      var defaultOid := LookupOid(storage[pgTablespace], "pg_default").value;
      AddClassEntries(cls, db, nsOid, globalOid, defaultOid);
    }

    /** AttrDefHandle::Create(db, "pg_attrdef"). */
    method CreatePGAttrDef(db: nat)
      modifies this
      ensures Snapshot() == BootstrapSteps.CreatePGAttrDef(old(Snapshot()), db)
    {
      var _ := CreateHandleTable(db, "pg_attrdef", ATTRDEF_SCHEMA_COLS);
    }

    // -------------------------------------------------------------------------------------
    // Bootstrapping.

    /**
     * BootstrapDatabase(db): pg_database and pg_tablespace registered under `db`, then
     * pg_attribute, pg_namespace and pg_class, and finally pg_attrdef.
     */
    method BootstrapDatabase(db: nat)
      requires ReadyFor(Snapshot(), db)
      modifies this
      ensures Snapshot() == DatabaseBootstrap.BootstrapDatabase(old(Snapshot()), db)
    {
      ghost var s0 := Snapshot();
      RegisterTable(db, "pg_database", pgDatabase);
      RegisterTable(db, "pg_tablespace", pgTablespace);
      RegisterGlobalsEffect(s0, db);
      CreatePGAttribute(db);
      AttributeStage(s0, db);
      CreatePGNameSpace(db);
      NamespaceStage(s0, db);
      CreatePGClass(db);
      ClassStage(s0, db);
      CreatePGAttrDef(db);
    }

    /**
     * Bootstrap: pg_database under a fresh oid and its row, pg_tablespace under a fresh oid and
     * its rows, then the default database's catalog relations.
     */
    method Bootstrap()
      requires Inv(Snapshot()) && DEFAULT_DATABASE_OID !in nameMap
      modifies this
      ensures Snapshot() == DatabaseBootstrap.Bootstrap(old(Snapshot()))
    {
      ghost var s0 := Snapshot();
      IssueKeeps(s0);
      var databaseOid := GetNextOid();
      CreatePGDatabase(databaseOid);
      CreatePGDatabaseEffect(Issue(s0), s0.nextOid);
      PopulatePGDatabase();
      WithPGDatabaseEffect(s0);
      ghost var s1 := Snapshot();
      IssueKeeps(s1);
      var tablespaceOid := GetNextOid();
      CreatePGTablespace(tablespaceOid);
      CreatePGTablespaceEffect(Issue(s1), s1.nextOid);
      PopulatePGTablespace();
      GlobalsReady(s0);
      BootstrapDatabase(DEFAULT_DATABASE_OID);
    }

    /**
     * The constructor: the counter at START_OID, then Bootstrap. The filler lists must only
     * use types SetUnusedColumns handles, or Bootstrap throws out of the constructor.
     */
    constructor (fillers: FillerCols)
      requires Supported(fillers.database) && Supported(fillers.tablespace)
      ensures Snapshot() == DatabaseBootstrap.Bootstrap(Initial(fillers))
      ensures Bootstrapped(Initial(fillers), Snapshot())
    {
      this.fillers := fillers;
      nextOid := START_OID;
      issued := [];
      tables := map[];
      storage := map[];
      nextAddr := 0;
      tableMap := map[];
      nameMap := map[];
      pgDatabase := 0;
      pgTablespace := 0;
      new;
      InitialInv(fillers);
      Bootstrap();
      BootstrapEffect(Initial(fillers));
    }

    // -------------------------------------------------------------------------------------
    // Databases.

    /** AddEntryToPGDatabase(oid, name): the database's pg_database row, and an empty map_[oid]. */
    method AddEntryToPGDatabase(oid: nat, name: string)
      requires DatabasesStored(Snapshot())
      modifies this
      ensures Snapshot() == DatabaseOps.AddEntryToPGDatabase(old(Snapshot()), oid, name)
    {
      var entry := SetUnusedColumns([Int(oid), Str(name)], fillers.database);
      InsertRow(pgDatabase, entry.value);
      tableMap := tableMap[oid := map[]];
    }

    /** CreateDatabase(name): a fresh oid, then the database's entry under it. */
    method CreateDatabase(name: string)
      requires DatabasesStored(Snapshot())
      modifies this
      ensures Snapshot() == DatabaseOps.CreateDatabase(old(Snapshot()), name)
    {
      var oid := GetNextOid();
      AddEntryToPGDatabase(oid, name);
    }

    /**
     * DeleteDatabase(name): the first pg_database entry named `name` is removed, and its oid
     * erased from map_ and name_map_.
     */
    method DeleteDatabase(name: string)
      requires CanDelete(Snapshot(), name)
      modifies this
      ensures Snapshot() == DatabaseOps.DeleteDatabase(old(Snapshot()), name)
    {
      var rows := storage[pgDatabase];
      var i := FindNamed(rows, name).value;
      var oid := LookupOid(rows, name).value;
      storage := storage[pgDatabase := RemoveAt(rows, i)];
      tableMap := Erase(tableMap, oid);
      nameMap := Erase(nameMap, oid);
    }

    /**
     * GetDatabaseCatalog(db, table_oid): the table map_ holds for the pair; absent (the source
     * throws) exactly when either oid is unknown. What it finds has that oid.
     */
    function GetDatabaseCatalog(db: nat, t: nat): (r: Option<nat>)
      reads this
      ensures r.Some? <==> db in tableMap && t in tableMap[db]
      ensures Inv(Snapshot()) && r.Some? ==> r.value in tables && tables[r.value].oid == t
    {
      Directory.GetDatabaseCatalog(tableMap, db, t)
    }

    /**
     * GetDatabaseCatalog(db, table_name): the table of the oid name_map_ gives for the name.
     * Under the invariant it is found exactly when the name is known, and it has that oid.
     */
    function GetDatabaseCatalogByName(db: nat, name: string): (r: Option<nat>)
      reads this
      ensures r.Some? ==> db in nameMap && name in nameMap[db] && r == GetDatabaseCatalog(db, nameMap[db][name])
      ensures Inv(Snapshot()) ==> (r.Some? <==> db in nameMap && name in nameMap[db])
      ensures Inv(Snapshot()) && r.Some? ==> r.value in tables && tables[r.value].oid == nameMap[db][name]
    {
      Directory.GetDatabaseCatalogByName(tableMap, nameMap, db, name)
    }

    /**
     * The lookups DestroyDB makes before its scan: `db`'s pg_class, and through `db`'s
     * pg_namespace the oid of pg_catalog. It fails when pg_class, pg_namespace or pg_catalog
     * cannot be found.
     */
    method ClassRowsToScan(db: nat) returns (r: Result<(seq<Row>, int), Error>)
      ensures r.Err? <==> !DestroyReady(Snapshot(), db)
      ensures r.Ok? ==> r.value.0 == ClassRowsOf(Snapshot(), db) && r.value.1 == PgCatalog(Snapshot(), db)
    {
      var cls := GetDatabaseCatalogByName(db, "pg_class");
      if cls.None? || cls.value !in storage {
        return Err(NotFound("pg_class"));
      }
      var ns := GetDatabaseCatalogByName(db, "pg_namespace");
      if ns.None? || ns.value !in storage {
        return Err(NotFound("pg_namespace"));
      }
      var catalogNs := LookupOid(storage[ns.value], "pg_catalog");
      if catalogNs.None? {
        return Err(NotFound("pg_catalog"));
      }
      return Ok((storage[cls.value], catalogNs.value));
    }

    /**
     * DestroyDB(db): one Scan of `db`'s pg_class into a buffer of SCAN_BATCH tuples, then the
     * filter over the tuples it delivered. Every scanned row whose namespace column is not the
     * oid of pg_catalog describes a user table, and the address in its first column is freed;
     * the result lists those addresses in row order. Rows beyond the first SCAN_BATCH are never
     * looked at.
     */
    method DestroyDB(db: nat) returns (r: Result<seq<nat>, Error>)
      ensures r.Err? <==> !DestroyReady(Snapshot(), db)
      ensures r.Ok? ==> r.value == Reclaimed(Scanned(ClassRowsOf(Snapshot(), db)), PgCatalog(Snapshot(), db))
    {
      var found := ClassRowsToScan(db);
      if found.Err? {
        return Err(found.error);
      }
      var rows, catalogNs := found.value.0, found.value.1;
      var n := if |rows| < SCAN_BATCH then |rows| else SCAN_BATCH;
      assert rows[..0] == [];
      var freed := ScanRows(rows, 0, n, catalogNs, []);
      return Ok(freed);
    }

    /**
     * DestroyDB as its comment intends it: pg_class scanned batch after batch of SCAN_BATCH
     * tuples until every row has been looked at, so every user table is freed.
     */
    method DestroyDBInBatches(db: nat) returns (r: Result<seq<nat>, Error>)
      ensures r.Err? <==> !DestroyReady(Snapshot(), db)
      ensures r.Ok? ==> r.value == Reclaimed(ClassRowsOf(Snapshot(), db), PgCatalog(Snapshot(), db))
    {
      var found := ClassRowsToScan(db);
      if found.Err? {
        return Err(found.error);
      }
      var rows, catalogNs := found.value.0, found.value.1;
      var freed := [];
      var start := 0;
      assert rows[..0] == [];
      while start < |rows|
        invariant 0 <= start <= |rows|
        invariant freed == Reclaimed(rows[..start], catalogNs)
      {
        var end := if |rows| - start < SCAN_BATCH then |rows| else start + SCAN_BATCH;
        freed := ScanRows(rows, start, end, catalogNs, freed);
        start := end;
      }
      assert rows[..start] == rows;
      return Ok(freed);
    }

    // -------------------------------------------------------------------------------------
    // pg_type.

    /**
     * One built-in type's row under a fresh oid: the (k+1)-th insertion, after the first k of
     * `base`'s pg_type at `addr`.
     */
    method InsertBuiltinType(addr: nat, nsOid: int, name: string, len: int, size: TypeId -> nat, ghost base: State, ghost k: nat)
      requires addr in base.storage && k < 9 && Snapshot() == TypesInserted(base, addr, nsOid, size, k)
      requires name == BUILTIN_TYPES[k].0 && len == TypeLength(BUILTIN_TYPES[k].1, size)
      modifies this
      ensures Snapshot() == TypesInserted(base, addr, nsOid, size, k + 1)
    {
      TypesInsertedStep(base, addr, nsOid, size, k);
      var oid := GetNextOid();
      InsertRow(addr, TypeRow(oid, name, nsOid, len));
    }

    /**
     * CreatePGType(db): pg_type under a fresh oid with its used and filler columns, registered
     * under `db`; then the nine built-in types in the namespace pg_catalog. `size` stands for
     * type::TypeUtil::GetTypeSize.
     */
    method CreatePGType(db: nat, size: TypeId -> nat)
      requires Inv(Snapshot()) && TypesReady(Snapshot(), db)
      modifies this
      ensures Snapshot() == TypeCatalog.CreatePGType(old(Snapshot()), db, size)
    {
      ghost var s0 := Snapshot();
      var typeOid := GetNextOid();
      var addr := NewTable(typeOid);
      AddUnusedSchemaColumns(addr, TYPE_SCHEMA_COLS);
      AddUnusedSchemaColumns(addr, fillers.types);
      DefineFreshTwice(AddTable(Issue(s0), s0.nextOid), addr, TYPE_SCHEMA_COLS, fillers.types);
      RegisterTable(db, "pg_type", addr);
      ghost var cols := TYPE_SCHEMA_COLS + s0.fillers.types;
      assert Snapshot() == HandleTable(s0, db, "pg_type", cols);
      HandleTableEffect(s0, db, "pg_type", cols);
      HandleTableKeepsLookup(s0, db, "pg_type", cols, db, "pg_namespace");
      var nsAddr := Directory.GetDatabaseCatalogByName(tableMap, nameMap, db, "pg_namespace").value;
      var nsOid := LookupOid(storage[nsAddr], "pg_catalog").value;
      InsertBuiltinTypes(addr, nsOid, size);
    }

    /**
     * The nine built-in types, each under a fresh oid, in the order the source inserts them:
     * boolean, tinyint, smallint, integer, date, bigint, decimal, timestamp (each of its
     * GetTypeSize) and varchar (-1).
     */
    method InsertBuiltinTypes(addr: nat, nsOid: int, size: TypeId -> nat)
      requires addr in storage
      modifies this
      ensures Snapshot() == InsertTypes(old(Snapshot()), addr, nsOid, size, BUILTIN_TYPES)
    {
      ghost var s0 := Snapshot();
      TypesInsertedEnds(s0, addr, nsOid, size);
      InsertBuiltinType(addr, nsOid, BUILTIN_TYPES[0].0, TypeLength(BUILTIN_TYPES[0].1, size), size, s0, 0);
      InsertBuiltinType(addr, nsOid, BUILTIN_TYPES[1].0, TypeLength(BUILTIN_TYPES[1].1, size), size, s0, 1);
      InsertBuiltinType(addr, nsOid, BUILTIN_TYPES[2].0, TypeLength(BUILTIN_TYPES[2].1, size), size, s0, 2);
      InsertBuiltinType(addr, nsOid, BUILTIN_TYPES[3].0, TypeLength(BUILTIN_TYPES[3].1, size), size, s0, 3);
      InsertBuiltinType(addr, nsOid, BUILTIN_TYPES[4].0, TypeLength(BUILTIN_TYPES[4].1, size), size, s0, 4);
      InsertBuiltinType(addr, nsOid, BUILTIN_TYPES[5].0, TypeLength(BUILTIN_TYPES[5].1, size), size, s0, 5);
      InsertBuiltinType(addr, nsOid, BUILTIN_TYPES[6].0, TypeLength(BUILTIN_TYPES[6].1, size), size, s0, 6);
      InsertBuiltinType(addr, nsOid, BUILTIN_TYPES[7].0, TypeLength(BUILTIN_TYPES[7].1, size), size, s0, 7);
      InsertBuiltinType(addr, nsOid, BUILTIN_TYPES[8].0, TypeLength(BUILTIN_TYPES[8].1, size), size, s0, 8);
    }
  }
}

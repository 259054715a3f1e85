/**
 * The catalog's state as one value, its invariant, and the state change each primitive
 * catalog step makes: handing out an oid, creating a table, defining columns, inserting
 * rows, registering a table in the directories, and describing a table in pg_attribute.
 */
module CatalogState {
  import opened Wrappers
  import opened Values
  import opened Oids
  import opened Fillers
  import opened CatalogRows
  import opened Directory

  /** The first oid the counter hands out. */
  const START_OID: nat := 1001
  /** The oid of the database every catalog is bootstrapped with; it lies below START_OID. */
  const DEFAULT_DATABASE_OID: nat := 0
  const DEFAULT_DATABASE_NAME := "terrier"

  /** pg_database's used columns, ahead of its filler columns. */
  const DATABASE_SCHEMA_COLS := [SchemaCol("oid", Integer), SchemaCol("datname", Varchar)]
  /** pg_tablespace's used columns, ahead of its filler columns. */
  const TABLESPACE_SCHEMA_COLS := [SchemaCol("oid", Integer), SchemaCol("spcname", Varchar)]
  /** pg_type's used columns, ahead of its filler columns. */
  const TYPE_SCHEMA_COLS :=
    [SchemaCol("oid", Integer), SchemaCol("typname", Varchar), SchemaCol("typnamespace", Integer),
     SchemaCol("typlen", SmallInt), SchemaCol("typtype", Varchar)]
  /** The relations the namespace, class and attribute-default handles create. */
  const NAMESPACE_SCHEMA_COLS := [SchemaCol("oid", Integer), SchemaCol("nspname", Varchar)]
  const CLASS_SCHEMA_COLS :=
    [SchemaCol("__ptr", BigInt), SchemaCol("oid", Integer), SchemaCol("relname", Varchar),
     SchemaCol("relnamespace", Integer), SchemaCol("reltablespace", Integer)]
  const ATTRDEF_SCHEMA_COLS :=
    [SchemaCol("oid", Integer), SchemaCol("adrelid", Integer), SchemaCol("adnum", Integer),
     SchemaCol("adbin", Varchar), SchemaCol("adsrc", Varchar)]

  /** The non-nullable columns DefineColumn records for `cols`, given consecutive oids from `first`. */
  function NewColumns(cols: seq<SchemaCol>, first: nat): (r: seq<Column>)
    ensures |r| == |cols|
    ensures forall k :: 0 <= k < |r| ==> r[k] == Column(cols[k].name, cols[k].typeId, false, first + k)
  {
    seq(|cols|, k requires 0 <= k < |cols| => Column(cols[k].name, cols[k].typeId, false, first + k))
  }

  /** Columns defined from two lists in a row are the columns of the joined list. */
  lemma NewColumnsAppend(a: seq<SchemaCol>, b: seq<SchemaCol>, first: nat)
    ensures NewColumns(a, first) + NewColumns(b, first + |a|) == NewColumns(a + b, first)
  {
    var l, r := NewColumns(a, first) + NewColumns(b, first + |a|), NewColumns(a + b, first);
    assert forall k :: |a| <= k < |a + b| ==> (a + b)[k] == b[k - |a|];
    assert forall k :: 0 <= k < |l| ==> l[k] == r[k];
  }

  /** pg_attribute's six columns, with oids from `first`; the last three may be NULL. */
  function AttributeColumns(first: nat): seq<Column>
  {
    [Column("oid", Integer, false, first), Column("attrelid", Integer, false, first + 1),
     Column("attname", Varchar, false, first + 2), Column("atttypid", Integer, true, first + 3),
     Column("attlen", Integer, true, first + 4), Column("attnum", Integer, true, first + 5)]
  }

  /**
   * The filler columns of pg_database (DatabaseHandle::unused_schema_cols_), of pg_tablespace
   * (pg_tablespace_unused_cols_) and of pg_type (pg_type_unused_cols).
   */
  datatype FillerCols = FillerCols(database: seq<SchemaCol>, tablespace: seq<SchemaCol>, types: seq<SchemaCol>)

  /**
   * Everything a Catalog object holds: the filler lists, the oid counter (oid_) with the
   * history of the oids it handed out, the catalog tables (SqlTableRW objects) by address
   * with their schemas and, apart, their rows, the two directories (map_ and name_map_), and
   * the addresses of the global relations pg_database_ and pg_tablespace_. Several directory
   * entries may hold one address, as several shared_ptrs may share one table.
   */
  datatype State = State(
    fillers: FillerCols,
    nextOid: nat,
    issued: seq<nat>,
    tables: map<nat, Table>,
    storage: map<nat, seq<Row>>,
    nextAddr: nat,
    tableMap: TableDirectory,
    nameMap: NameDirectory,
    pgDatabase: nat,
    pgTablespace: nat)

  /** The catalog as its constructor finds it before Bootstrap: counter at START_OID, nothing else. */
  function Initial(fillers: FillerCols): State
  {
    State(fillers, START_OID, [], map[], map[], 0, map[], map[], 0, 0)
  }

  /** The counter lies above every oid it handed out, which it handed out in increasing order. */
  ghost predicate CounterOk(s: State)
  {
    && START_OID <= s.nextOid
    && StepwiseIncreasing(s.issued)
    && (forall i :: 0 <= i < |s.issued| ==> START_OID <= s.issued[i] < s.nextOid)
  }

  /** Every table lies below the next free address, carries an issued oid and has rows in storage. */
  ghost predicate TablesOk(s: State)
  {
    && (forall a :: a in s.tables ==> a < s.nextAddr && START_OID <= s.tables[a].oid < s.nextOid)
    && (forall a :: a in s.storage <==> a in s.tables)
  }

  /**
   * Every database oid of the directory is below the counter, a table registered under an oid
   * exists and has that oid, and every name leads to a registered oid.
   */
  ghost predicate DirectoryOk(s: State)
  {
    && (forall db :: db in s.tableMap ==> db < s.nextOid)
    && (forall db, t :: db in s.tableMap && t in s.tableMap[db] ==>
          s.tableMap[db][t] in s.tables && s.tables[s.tableMap[db][t]].oid == t)
    && DirectoriesAgree(s.tableMap, s.nameMap)
  }

  /** The catalog's invariant; the filler lists only use types SetUnusedColumns handles. */
  ghost predicate Inv(s: State)
  {
    && Supported(s.fillers.database) && Supported(s.fillers.tablespace)
    && CounterOk(s) && TablesOk(s) && DirectoryOk(s)
  }

  /** The invariant once the global relations exist. */
  ghost predicate Valid(s: State)
  {
    Inv(s) && s.pgDatabase in s.tables && s.pgTablespace in s.tables
  }

  lemma InitialInv(fillers: FillerCols)
    requires Supported(fillers.database) && Supported(fillers.tablespace)
    ensures Inv(Initial(fillers))
  {
  }

  /** Under the invariant a table found by name carries the oid the name directory gives for it. */
  lemma FoundByName(s: State, db: nat, name: string)
    requires Inv(s) && GetDatabaseCatalogByName(s.tableMap, s.nameMap, db, name).Some?
    ensures GetDatabaseCatalogByName(s.tableMap, s.nameMap, db, name).value in s.tables
    ensures s.tables[GetDatabaseCatalogByName(s.tableMap, s.nameMap, db, name).value].oid == s.nameMap[db][name]
  {
  }

  // ---------------------------------------------------------------------------------------
  // The primitive steps.

  /** GetNextOid: the counter advances by one and the value it had joins the history. */
  ghost function Issue(s: State): State
  {
    s.(nextOid := s.nextOid + 1, issued := s.issued + [s.nextOid])
  }

  /** `n` calls of GetNextOid. */
  ghost function IssueMany(s: State, n: nat): State
  {
    s.(nextOid := s.nextOid + n, issued := s.issued + Consecutive(s.nextOid, n))
  }

  /** make_shared<SqlTableRW>(oid): a new table with no columns and no rows at the next address. */
  ghost function AddTable(s: State, oid: nat): State
  {
    s.(tables := s.tables[s.nextAddr := Table(oid, [])], storage := s.storage[s.nextAddr := []], nextAddr := s.nextAddr + 1)
  }

  /** SqlTableRW::DefineColumn, once per column of `cs`: the schema at `addr` grows by `cs`. */
  ghost function WithColumns(s: State, addr: nat, cs: seq<Column>): State
    requires addr in s.tables
  {
    s.(tables := s.tables[addr := Table(s.tables[addr].oid, s.tables[addr].columns + cs)])
  }

  /** SqlTableRW::InsertRow, once per row of `rows`: the rows at `addr` grow by `rows`. */
  ghost function WithRows(s: State, addr: nat, rows: seq<Row>): State
    requires addr in s.storage
  {
    s.(storage := s.storage[addr := s.storage[addr] + rows])
  }

  /** AddUnusedSchemaColumns: one non-nullable column per descriptor, each under the next oid. */
  ghost function DefineFresh(s: State, addr: nat, cols: seq<SchemaCol>): State
    requires addr in s.tables
  {
    WithColumns(IssueMany(s, |cols|), addr, NewColumns(cols, s.nextOid))
  }

  /** `map_[db][oid] = t` and `name_map_[db][name] = oid`, for the table at `addr` and its oid. */
  ghost function Register(s: State, db: nat, name: string, addr: nat): State
    requires addr in s.tables
  {
    var oid := s.tables[addr].oid;
    s.(tableMap := s.tableMap[db := Inner(s.tableMap, db)[oid := addr]],
       nameMap := s.nameMap[db := Inner(s.nameMap, db)[name := oid]])
  }

  /**
   * The table a catalog handle's Create makes: a fresh oid, a new table under it at the next
   * address, one column per descriptor under the next oids, registered under `db` by oid and name.
   */
  ghost function HandleTable(s: State, db: nat, name: string, cols: seq<SchemaCol>): State
  {
    var s1 := AddTable(Issue(s), s.nextOid);
    Register(DefineFresh(s1, s.nextAddr, cols), db, name, s.nextAddr)
  }

  /** pg_attribute of `db` is registered and stored, and `addr` holds a table. */
  ghost predicate CanDescribe(s: State, db: nat, addr: nat)
  {
    && addr in s.tables
    && GetDatabaseCatalogByName(s.tableMap, s.nameMap, db, "pg_attribute").Some?
    && GetDatabaseCatalogByName(s.tableMap, s.nameMap, db, "pg_attribute").value in s.storage
  }

  /** AddColumnsToPGAttribute: pg_attribute of `db` gains one row per column of the table at `addr`. */
  ghost function Describe(s: State, db: nat, addr: nat): State
    requires CanDescribe(s, db, addr)
  {
    var attr := GetDatabaseCatalogByName(s.tableMap, s.nameMap, db, "pg_attribute").value;
    WithRows(s, attr, AttributeRows(s.tables[addr].oid, s.tables[addr].columns))
  }

  // ---------------------------------------------------------------------------------------
  // Each step keeps the invariant.

  /** GetNextOid hands out an oid above every oid it handed out before, and keeps the invariant. */
  lemma IssueKeeps(s: State)
    requires Inv(s)
    ensures Inv(Issue(s))
    ensures s.nextOid !in s.issued && forall i :: 0 <= i < |s.issued| ==> s.issued[i] < s.nextOid
  {
    IssueNext(s.issued, s.nextOid);
  }

  lemma IssueManyKeeps(s: State, n: nat)
    requires Inv(s)
    ensures Inv(IssueMany(s, n))
  {
    IssueConsecutive(s.issued, s.nextOid, n);
  }

  lemma AddTableKeeps(s: State, oid: nat)
    requires Inv(s) && START_OID <= oid < s.nextOid
    ensures Inv(AddTable(s, oid))
  {
  }

  lemma DefineFreshKeeps(s: State, addr: nat, cols: seq<SchemaCol>)
    requires Inv(s) && addr in s.tables
    ensures Inv(DefineFresh(s, addr, cols))
  {
    IssueManyKeeps(s, |cols|);
  }

  lemma RegisterKeeps(s: State, db: nat, name: string, addr: nat)
    requires Inv(s) && addr in s.tables && db < s.nextOid
    ensures Inv(Register(s, db, name, addr))
  {
  }

  lemma HandleTableKeeps(s: State, db: nat, name: string, cols: seq<SchemaCol>)
    requires Inv(s) && db < s.nextOid
    ensures Inv(HandleTable(s, db, name, cols))
  {
    HandleTableNormal(s, db, name, cols);
    var t := Table(s.nextOid, NewColumns(cols, s.nextOid + 1));
    CreatedKeeps(s, 1 + |cols|, t);
    RegisterKeeps(Created(s, 1 + |cols|, t), db, name, s.nextAddr);
  }

  /**
   * The normal form of table creation: `n` oids handed out, and a new table `t`, with no rows,
   * at the next address.
   */
  ghost function Created(s: State, n: nat, t: Table): State
  {
    s.(nextOid := s.nextOid + n, issued := s.issued + Consecutive(s.nextOid, n),
       tables := s.tables[s.nextAddr := t], storage := s.storage[s.nextAddr := []], nextAddr := s.nextAddr + 1)
  }

  /** Creating a table under an issued oid keeps the invariant. */
  lemma CreatedKeeps(s: State, n: nat, t: Table)
    requires Inv(s) && START_OID <= t.oid < s.nextOid + n
    ensures Inv(Created(s, n, t))
  {
    IssueConsecutive(s.issued, s.nextOid, n);
  }

  /** A new table under `tableOid` whose columns take the next oids is a created table. */
  lemma DefineFreshCreated(s: State, tableOid: nat, cols: seq<SchemaCol>)
    ensures DefineFresh(AddTable(s, tableOid), s.nextAddr, cols) ==
            Created(s, |cols|, Table(tableOid, NewColumns(cols, s.nextOid)))
  {
    assert [] + NewColumns(cols, s.nextOid) == NewColumns(cols, s.nextOid);
  }

  /** A handle's table is created under the counter's oid, its columns under the oids after it, and then registered. */
  lemma HandleTableNormal(s: State, db: nat, name: string, cols: seq<SchemaCol>)
    ensures HandleTable(s, db, name, cols) ==
            Register(Created(s, 1 + |cols|, Table(s.nextOid, NewColumns(cols, s.nextOid + 1))), db, name, s.nextAddr)
  {
    DefineFreshCreated(Issue(s), s.nextOid, cols);
    ConsecutiveAppend(s.nextOid, 1, |cols|);
    assert Consecutive(s.nextOid, 1) == [s.nextOid];
    assert s.issued + [s.nextOid] + Consecutive(s.nextOid + 1, |cols|) == s.issued + ([s.nextOid] + Consecutive(s.nextOid + 1, |cols|));
  }

  /** `map_[db] = {}` keeps the invariant for a database below the counter that has no names. */
  lemma EmptyDirectoryKeeps(s: State, db: nat)
    requires Inv(s) && db < s.nextOid && db !in s.nameMap
    ensures Inv(s.(tableMap := s.tableMap[db := map[]]))
  {
  }

  /** Describing a table in pg_attribute keeps the invariant: only rows change. */
  lemma DescribeKeeps(s: State, db: nat, addr: nat)
    requires Inv(s) && CanDescribe(s, db, addr)
    ensures Inv(Describe(s, db, addr))
  {
  }

  // ---------------------------------------------------------------------------------------
  // One loop iteration at a time.

  /** One oid and then `n` more are `n + 1` consecutive oids. */
  lemma IssueThenMany(s: State, n: nat)
    ensures IssueMany(Issue(s), n) == IssueMany(s, n + 1)
  {
    var o := s.nextOid;
    ConsecutiveAppend(o, 1, n);
    assert Consecutive(o, 1) == [o];
    assert s.issued + [o] + Consecutive(o + 1, n) == s.issued + ([o] + Consecutive(o + 1, n));
  }

  /** One more GetNextOid after `n` of them. */
  lemma IssueSnoc(s: State, n: nat)
    ensures Issue(IssueMany(s, n)) == IssueMany(s, n + 1)
  {
  }

  /** Defining a list of columns and then one more defines the longer list. */
  lemma WithColumnsSnoc(s: State, addr: nat, cs: seq<Column>, c: Column)
    requires addr in s.tables
    ensures WithColumns(WithColumns(s, addr, cs), addr, [c]) == WithColumns(s, addr, cs + [c])
  {
    assert s.tables[addr].columns + cs + [c] == s.tables[addr].columns + (cs + [c]);
  }

  /** Inserting a list of rows and then one more inserts the longer list. */
  lemma WithRowsSnoc(s: State, addr: nat, rows: seq<Row>, row: Row)
    requires addr in s.storage
    ensures WithRows(WithRows(s, addr, rows), addr, [row]) == WithRows(s, addr, rows + [row])
  {
    assert s.storage[addr] + rows + [row] == s.storage[addr] + (rows + [row]);
  }

  /** Two entries each added under a fresh oid: both oids handed out, then both rows appended. */
  lemma EntriesAfterOids(s: State, addr: nat, a: Row, b: Row)
    requires addr in s.storage
    ensures WithRows(Issue(WithRows(Issue(s), addr, [a])), addr, [b]) == WithRows(Issue(Issue(s)), addr, [a, b])
  {
    assert s.storage[addr] + [a] + [b] == s.storage[addr] + [a, b];
  }

  /** Iteration i of AddUnusedSchemaColumns: the next oid, then column i under it. */
  lemma DefineFreshStep(s: State, addr: nat, cols: seq<SchemaCol>, i: nat)
    requires addr in s.tables && i < |cols|
    ensures DefineFresh(s, addr, cols[..i + 1]) ==
              WithColumns(Issue(DefineFresh(s, addr, cols[..i])), addr, [Column(cols[i].name, cols[i].typeId, false, s.nextOid + i)])
  {
    var c := Column(cols[i].name, cols[i].typeId, false, s.nextOid + i);
    var before := NewColumns(cols[..i], s.nextOid);
    NewColumnsAppend(cols[..i], [cols[i]], s.nextOid);
    assert NewColumns([cols[i]], s.nextOid + i) == [c];
    assert cols[..i] + [cols[i]] == cols[..i + 1];
    IssueSnoc(s, i);
    assert Issue(WithColumns(IssueMany(s, i), addr, before)) == WithColumns(IssueMany(s, i + 1), addr, before);
    WithColumnsSnoc(IssueMany(s, i + 1), addr, before, c);
  }

  /** Defining two lists of columns in a row defines the joined list, under the same oids. */
  lemma DefineFreshTwice(s: State, addr: nat, a: seq<SchemaCol>, b: seq<SchemaCol>)
    requires addr in s.tables
    ensures DefineFresh(DefineFresh(s, addr, a), addr, b) == DefineFresh(s, addr, a + b)
  {
    var l, r := DefineFresh(DefineFresh(s, addr, a), addr, b), DefineFresh(s, addr, a + b);
    assert l.issued == r.issued by {
      var oa, ob := Consecutive(s.nextOid, |a|), Consecutive(s.nextOid + |a|, |b|);
      ConsecutiveAppend(s.nextOid, |a|, |b|);
      assert s.issued + oa + ob == s.issued + (oa + ob);
    }
    assert l.tables == r.tables by {
      var ca, cb := NewColumns(a, s.nextOid), NewColumns(b, s.nextOid + |a|);
      NewColumnsAppend(a, b, s.nextOid);
      assert s.tables[addr].columns + ca + cb == s.tables[addr].columns + (ca + cb);
    }
  }

  // ---------------------------------------------------------------------------------------
  // What registration does to the lookups.

  /** After registering the table at `addr` under `name`, GetDatabaseCatalog(db, name) finds it. */
  lemma RegisterFinds(s: State, db: nat, name: string, addr: nat)
    requires addr in s.tables
    ensures var r := Register(s, db, name, addr);
            GetDatabaseCatalogByName(r.tableMap, r.nameMap, db, name) == Some(addr)
  {
  }

  /**
   * Registering a table whose oid the database does not know yet leaves every other lookup by
   * name as it was: other databases, and other names of the same database.
   */
  lemma RegisterKeepsOthers(s: State, db: nat, name: string, addr: nat, db': nat, name': string)
    requires DirectoriesAgree(s.tableMap, s.nameMap) && addr in s.tables
    requires s.tables[addr].oid !in Inner(s.tableMap, db)
    requires db' != db || name' != name
    ensures var r := Register(s, db, name, addr);
            GetDatabaseCatalogByName(r.tableMap, r.nameMap, db', name') ==
            GetDatabaseCatalogByName(s.tableMap, s.nameMap, db', name')
  {
  }

  /**
   * A handle's Create: the new table sits at the next address under the counter's oid, its
   * columns under the oids after it, with no rows, and `name` of `db` now finds it.
   */
  lemma HandleTableEffect(s: State, db: nat, name: string, cols: seq<SchemaCol>)
    ensures var r := HandleTable(s, db, name, cols);
            && r.tables == s.tables[s.nextAddr := Table(s.nextOid, NewColumns(cols, s.nextOid + 1))]
            && r.storage == s.storage[s.nextAddr := []]
            && r.nextOid == s.nextOid + 1 + |cols| && r.nextAddr == s.nextAddr + 1
            && r.fillers == s.fillers && r.pgDatabase == s.pgDatabase && r.pgTablespace == s.pgTablespace
            && GetDatabaseCatalogByName(r.tableMap, r.nameMap, db, name) == Some(s.nextAddr)
  {
    HandleTableNormal(s, db, name, cols);
  }

  /** A handle's Create leaves every lookup by another name, or in another database, as it was. */
  lemma HandleTableKeepsLookup(s: State, db: nat, name: string, cols: seq<SchemaCol>, db': nat, name': string)
    requires Inv(s) && (db' != db || name' != name)
    ensures var r := HandleTable(s, db, name, cols);
            GetDatabaseCatalogByName(r.tableMap, r.nameMap, db', name') ==
            GetDatabaseCatalogByName(s.tableMap, s.nameMap, db', name')
  {
    HandleTableNormal(s, db, name, cols);
    FreshOidUnregistered(s, db);
    RegisterKeepsOthers(Created(s, 1 + |cols|, Table(s.nextOid, NewColumns(cols, s.nextOid + 1))), db, name, s.nextAddr, db', name');
  }

  /** The counter's current value is registered in no database yet. */
  lemma FreshOidUnregistered(s: State, db: nat)
    requires Inv(s)
    ensures s.nextOid !in Inner(s.tableMap, db)
  {
  }

  /** The table `name` of database `db` is found. */
  ghost predicate Registered(s: State, db: nat, name: string)
  {
    GetDatabaseCatalogByName(s.tableMap, s.nameMap, db, name).Some?
  }

  /** The address of table `name` of database `db`. */
  ghost function Found(s: State, db: nat, name: string): nat
    requires Registered(s, db, name)
  {
    GetDatabaseCatalogByName(s.tableMap, s.nameMap, db, name).value
  }

  /** GetDatabaseCatalog(db, name) finds the table at `addr`. */
  ghost predicate Finds(s: State, db: nat, name: string, addr: nat)
  {
    GetDatabaseCatalogByName(s.tableMap, s.nameMap, db, name) == Some(addr)
  }
}

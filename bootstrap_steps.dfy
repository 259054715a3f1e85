/**
 * The state change each bootstrap step of the catalog makes: the global relations
 * pg_database and pg_tablespace and their seed rows, then per database the relations
 * pg_attribute, pg_namespace, pg_class and pg_attrdef, and the separate pg_type.
 */
module BootstrapSteps {
  import opened Wrappers
  import opened Values
  import opened Oids
  import opened Fillers
  import opened CatalogRows
  import opened Directory
  import opened CatalogState

  /**
   * CreatePGDatabase(table_oid): pg_database at the next address under `tableOid`, its used
   * columns and then its filler columns each under the next oid, and an empty table directory
   * for the default database (its name directory is left alone).
   */
  ghost function CreatePGDatabase(s: State, tableOid: nat): State
  {
    var addr := s.nextAddr;
    var s1 := DefineFresh(AddTable(s, tableOid), addr, DATABASE_SCHEMA_COLS);
    var s2 := DefineFresh(s1, addr, s.fillers.database);
    s2.(pgDatabase := addr, tableMap := s2.tableMap[DEFAULT_DATABASE_OID := map[]])
  }

  /** PopulatePGDatabase: the default database's row, "terrier" under its oid, then its fillers. */
  ghost function PopulatePGDatabase(s: State): State
    requires Supported(s.fillers.database) && s.pgDatabase in s.storage
  {
    WithRows(s, s.pgDatabase, [EntryRow(DEFAULT_DATABASE_OID, DEFAULT_DATABASE_NAME, Fill(s.fillers.database))])
  }

  /** CreatePGTablespace(table_oid): pg_tablespace under `tableOid` with oid and spcname, then its fillers. */
  ghost function CreatePGTablespace(s: State, tableOid: nat): State
  {
    var addr := s.nextAddr;
    var s1 := DefineFresh(AddTable(s, tableOid), addr, TABLESPACE_SCHEMA_COLS);
    DefineFresh(s1, addr, s.fillers.tablespace).(pgTablespace := addr)
  }

  /** PopulatePGTablespace: two fresh oids, then the rows pg_global and pg_default under them in that order. */
  ghost function PopulatePGTablespace(s: State): State
    requires Supported(s.fillers.tablespace) && s.pgTablespace in s.storage
  {
    var g := s.nextOid;
    var f := Fill(s.fillers.tablespace);
    WithRows(Issue(Issue(s)), s.pgTablespace, [EntryRow(g, "pg_global", f), EntryRow(g + 1, "pg_default", f)])
  }

  /** The first lines of BootstrapDatabase: both global relations registered under `db` by oid and by name. */
  ghost function RegisterGlobals(s: State, db: nat): State
    requires s.pgDatabase in s.tables && s.pgTablespace in s.tables
  {
    Register(Register(s, db, "pg_database", s.pgDatabase), db, "pg_tablespace", s.pgTablespace)
  }

  /** The database's pg_database and pg_tablespace are found by name. */
  ghost predicate GlobalsRegistered(s: State, db: nat)
  {
    Registered(s, db, "pg_database") && Registered(s, db, "pg_tablespace")
  }

  /**
   * CreatePGAttribute: a fresh oid for pg_attribute, the table at the next address, six more
   * oids, its six columns under them, registration under `db`, and then the attribute rows of
   * pg_attribute itself, of pg_database and of pg_tablespace, in that order.
   */
  ghost function CreatePGAttribute(s: State, db: nat): State
    requires Inv(s) && GlobalsRegistered(s, db)
  {
    var s1 := AttributeTable(s, db);
    AttributeTableEffect(s, db);
    AttributeTableKeepsLookup(s, db, db, "pg_database");
    AttributeTableKeepsLookup(s, db, db, "pg_tablespace");
    var s2 := Describe(s1, db, s.nextAddr);
    var s3 := Describe(s2, db, Found(s2, db, "pg_database"));
    Describe(s3, db, Found(s3, db, "pg_tablespace"))
  }

  /** The first part of CreatePGAttribute: the table, its six columns, and its registration. */
  ghost function AttributeTable(s: State, db: nat): State
  {
    var attrOid, addr := s.nextOid, s.nextAddr;
    var s1 := WithColumns(IssueMany(AddTable(Issue(s), attrOid), 6), addr, AttributeColumns(attrOid + 1));
    Register(s1, db, "pg_attribute", addr)
  }

  /** pg_attribute is created under the counter's oid, its six columns under the next six oids, and then registered. */
  lemma AttributeTableNormal(s: State, db: nat)
    ensures AttributeTable(s, db) ==
            Register(Created(s, 7, Table(s.nextOid, AttributeColumns(s.nextOid + 1))), db, "pg_attribute", s.nextAddr)
  {
    var o := s.nextOid;
    IssueThenMany(s, 6);
    assert [] + AttributeColumns(o + 1) == AttributeColumns(o + 1);
  }

  /**
   * pg_attribute sits at the next address under the counter's oid with its six columns under
   * the next six oids and no rows, and `db` finds it by name.
   */
  lemma AttributeTableEffect(s: State, db: nat)
    ensures var r := AttributeTable(s, db);
            && r.tables == s.tables[s.nextAddr := Table(s.nextOid, AttributeColumns(s.nextOid + 1))]
            && r.storage == s.storage[s.nextAddr := []]
            && r.nextOid == s.nextOid + 7 && r.nextAddr == s.nextAddr + 1
            && r.fillers == s.fillers && r.pgDatabase == s.pgDatabase && r.pgTablespace == s.pgTablespace
            && GetDatabaseCatalogByName(r.tableMap, r.nameMap, db, "pg_attribute") == Some(s.nextAddr)
  {
    AttributeTableNormal(s, db);
  }

  /** Making pg_attribute leaves every other lookup by name as it was. */
  lemma AttributeTableKeepsLookup(s: State, db: nat, db': nat, name': string)
    requires Inv(s) && (db' != db || name' != "pg_attribute")
    ensures var r := AttributeTable(s, db);
            GetDatabaseCatalogByName(r.tableMap, r.nameMap, db', name') ==
            GetDatabaseCatalogByName(s.tableMap, s.nameMap, db', name')
  {
    AttributeTableNormal(s, db);
    FreshOidUnregistered(s, db);
    RegisterKeepsOthers(Created(s, 7, Table(s.nextOid, AttributeColumns(s.nextOid + 1))), db, "pg_attribute", s.nextAddr, db', name');
  }

  lemma AttributeTableKeeps(s: State, db: nat)
    requires Inv(s) && db < s.nextOid
    ensures Inv(AttributeTable(s, db))
  {
    AttributeTableNormal(s, db);
    var t := Table(s.nextOid, AttributeColumns(s.nextOid + 1));
    CreatedKeeps(s, 7, t);
    RegisterKeeps(Created(s, 7, t), db, "pg_attribute", s.nextAddr);
  }

  /**
   * CreatePGNameSpace: NamespaceHandle::Create makes pg_namespace and describes its columns in
   * pg_attribute; then the entries pg_catalog and public, each under a fresh oid.
   */
  ghost function CreatePGNameSpace(s: State, db: nat): State
    requires Inv(s) && Registered(s, db, "pg_attribute")
  {
    var ns := s.nextAddr;
    var s1 := HandleTable(s, db, "pg_namespace", NAMESPACE_SCHEMA_COLS);
    HandleTableEffect(s, db, "pg_namespace", NAMESPACE_SCHEMA_COLS);
    HandleTableKeepsLookup(s, db, "pg_namespace", NAMESPACE_SCHEMA_COLS, db, "pg_attribute");
    var s2 := Describe(s1, db, ns);
    var c := s2.nextOid;
    WithRows(Issue(Issue(s2)), ns, [EntryRow(c, "pg_catalog", []), EntryRow(c + 1, "public", [])])
  }

  /** The pg_class row ClassHandle::AddEntry writes for table `name` of `db`: its address and oid. */
  ghost function ClassEntry(s: State, db: nat, name: string, nsOid: int, tsOid: int): Row
    requires Registered(s, db, name) && Found(s, db, name) in s.tables
  {
    var addr := Found(s, db, name);
    ClassRow(addr, s.tables[addr].oid, name, nsOid, tsOid)
  }

  /** What CreatePGClass looks up exists: the four relations, pg_catalog, pg_global and pg_default. */
  ghost predicate ClassLookupsOk(s: State, db: nat)
  {
    && Registered(s, db, "pg_database") && Registered(s, db, "pg_tablespace")
    && Registered(s, db, "pg_namespace") && Registered(s, db, "pg_attribute")
    && Found(s, db, "pg_namespace") in s.storage
    && LookupOid(s.storage[Found(s, db, "pg_namespace")], "pg_catalog").Some?
    && s.pgTablespace in s.storage
    && LookupOid(s.storage[s.pgTablespace], "pg_global").Some?
    && LookupOid(s.storage[s.pgTablespace], "pg_default").Some?
  }

  /**
   * CreatePGClass: ClassHandle::Create makes pg_class; then one row each for pg_database and
   * pg_tablespace (tablespace pg_global) and for pg_namespace, pg_class and pg_attribute
   * (tablespace pg_default), all in namespace pg_catalog.
   */
  ghost function CreatePGClass(s: State, db: nat): State
    requires Inv(s) && ClassLookupsOk(s, db)
  {
    var cls := s.nextAddr;
    var s1 := HandleTable(s, db, "pg_class", CLASS_SCHEMA_COLS);
    HandleTableEffect(s, db, "pg_class", CLASS_SCHEMA_COLS);
    HandleTableKeepsLookup(s, db, "pg_class", CLASS_SCHEMA_COLS, db, "pg_database");
    HandleTableKeepsLookup(s, db, "pg_class", CLASS_SCHEMA_COLS, db, "pg_tablespace");
    HandleTableKeepsLookup(s, db, "pg_class", CLASS_SCHEMA_COLS, db, "pg_namespace");
    HandleTableKeepsLookup(s, db, "pg_class", CLASS_SCHEMA_COLS, db, "pg_attribute");
    var nsOid := LookupOid(s1.storage[Found(s1, db, "pg_namespace")], "pg_catalog").value;
    var g := LookupOid(s1.storage[s1.pgTablespace], "pg_global").value;
    var d := LookupOid(s1.storage[s1.pgTablespace], "pg_default").value;
    WithRows(s1, cls,
      [ClassEntry(s1, db, "pg_database", nsOid, g), ClassEntry(s1, db, "pg_tablespace", nsOid, g),
       ClassEntry(s1, db, "pg_namespace", nsOid, d), ClassEntry(s1, db, "pg_class", nsOid, d),
       ClassEntry(s1, db, "pg_attribute", nsOid, d)])
  }

  /** AttrDefHandle::Create: pg_attrdef with its columns, registered under `db`. */
  ghost function CreatePGAttrDef(s: State, db: nat): State
  {
    HandleTable(s, db, "pg_attrdef", ATTRDEF_SCHEMA_COLS)
  }

  // ---------------------------------------------------------------------------------------
  // What each step does, in closed form.

  /** pg_database is a new table at the next address, with its used and filler columns under consecutive oids. */
  lemma CreatePGDatabaseEffect(s: State, tableOid: nat)
    requires Inv(s) && START_OID <= tableOid < s.nextOid && DEFAULT_DATABASE_OID !in s.nameMap
    ensures var r := CreatePGDatabase(s, tableOid);
            && Inv(r) && r.pgDatabase == s.nextAddr && r.pgTablespace == s.pgTablespace
            && r.tables == s.tables[s.nextAddr := Table(tableOid, NewColumns(DATABASE_SCHEMA_COLS + s.fillers.database, s.nextOid))]
            && r.storage == s.storage[s.nextAddr := []]
            && r.nextOid == s.nextOid + |DATABASE_SCHEMA_COLS| + |s.fillers.database| && r.nextAddr == s.nextAddr + 1
            && r.fillers == s.fillers && r.nameMap == s.nameMap
            && r.tableMap == s.tableMap[DEFAULT_DATABASE_OID := map[]]
  {
    var addr := s.nextAddr;
    var cols := DATABASE_SCHEMA_COLS + s.fillers.database;
    DefineFreshTwice(AddTable(s, tableOid), addr, DATABASE_SCHEMA_COLS, s.fillers.database);
    DefineFreshCreated(s, tableOid, cols);
    CreatedKeeps(s, |cols|, Table(tableOid, NewColumns(cols, s.nextOid)));
    EmptyDirectoryKeeps(DefineFresh(AddTable(s, tableOid), addr, cols), DEFAULT_DATABASE_OID);
  }

  /** pg_tablespace is a new table at the next address, with its used and filler columns under consecutive oids. */
  lemma CreatePGTablespaceEffect(s: State, tableOid: nat)
    requires Inv(s) && START_OID <= tableOid < s.nextOid
    ensures var r := CreatePGTablespace(s, tableOid);
            && Inv(r) && r.pgTablespace == s.nextAddr && r.pgDatabase == s.pgDatabase
            && r.tables == s.tables[s.nextAddr := Table(tableOid, NewColumns(TABLESPACE_SCHEMA_COLS + s.fillers.tablespace, s.nextOid))]
            && r.storage == s.storage[s.nextAddr := []]
            && r.nextOid == s.nextOid + |TABLESPACE_SCHEMA_COLS| + |s.fillers.tablespace| && r.nextAddr == s.nextAddr + 1
            && r.fillers == s.fillers && r.tableMap == s.tableMap && r.nameMap == s.nameMap
  {
    var addr := s.nextAddr;
    var cols := TABLESPACE_SCHEMA_COLS + s.fillers.tablespace;
    DefineFreshTwice(AddTable(s, tableOid), addr, TABLESPACE_SCHEMA_COLS, s.fillers.tablespace);
    DefineFreshCreated(s, tableOid, cols);
    CreatedKeeps(s, |cols|, Table(tableOid, NewColumns(cols, s.nextOid)));
  }

  /** Seeding pg_tablespace keeps the invariant. */
  lemma PopulatePGTablespaceKeeps(s: State)
    requires Inv(s) && s.pgTablespace in s.tables
    ensures Inv(PopulatePGTablespace(s))
  {
    IssueKeeps(s);
    IssueKeeps(Issue(s));
  }

  /** Bootstrap's first two lines: a fresh oid, pg_database under it, and the default database's row. */
  ghost function WithPGDatabase(s: State): State
    requires Inv(s) && DEFAULT_DATABASE_OID !in s.nameMap
  {
    IssueKeeps(s);
    CreatePGDatabaseEffect(Issue(s), s.nextOid);
    PopulatePGDatabase(CreatePGDatabase(Issue(s), s.nextOid))
  }

  /** Bootstrap's next two lines: a fresh oid, pg_tablespace under it, and its two rows. */
  ghost function WithPGTablespace(s: State): State
    requires Inv(s)
  {
    IssueKeeps(s);
    CreatePGTablespaceEffect(Issue(s), s.nextOid);
    PopulatePGTablespace(CreatePGTablespace(Issue(s), s.nextOid))
  }

  /** The global relations Bootstrap creates before the default database's own. */
  ghost function BootstrapGlobals(s: State): State
    requires Inv(s) && DEFAULT_DATABASE_OID !in s.nameMap
  {
    WithPGDatabaseEffect(s);
    WithPGTablespace(WithPGDatabase(s))
  }

  /** The oid pg_tablespace gets: the one after pg_database's table and column oids. */
  function TablespaceOid(o: nat, f: FillerCols): nat
  {
    o + 1 + |DATABASE_SCHEMA_COLS| + |f.database|
  }

  /** The oid of pg_global; pg_default gets the one after it. */
  function GlobalOid(o: nat, f: FillerCols): nat
  {
    TablespaceOid(o, f) + 1 + |TABLESPACE_SCHEMA_COLS| + |f.tablespace|
  }

  /** pg_database at the next address, under the counter's oid, holding the default database "terrier". */
  lemma WithPGDatabaseEffect(s: State)
    requires Inv(s) && DEFAULT_DATABASE_OID !in s.nameMap
    ensures var r, a, o, f := WithPGDatabase(s), s.nextAddr, s.nextOid, s.fillers;
            && Inv(r) && r.fillers == f && r.pgDatabase == a && r.pgTablespace == s.pgTablespace
            && r.nextOid == TablespaceOid(o, f) && r.nextAddr == a + 1
            && r.tables == s.tables[a := Table(o, NewColumns(DATABASE_SCHEMA_COLS + f.database, o + 1))]
            && r.storage == s.storage[a := [EntryRow(DEFAULT_DATABASE_OID, DEFAULT_DATABASE_NAME, Fill(f.database))]]
            && r.tableMap == s.tableMap[DEFAULT_DATABASE_OID := map[]] && r.nameMap == s.nameMap
  {
    IssueKeeps(s);
    CreatePGDatabaseEffect(Issue(s), s.nextOid);
    DatabaseCompose(s, CreatePGDatabase(Issue(s), s.nextOid));
  }

  /** PopulatePGDatabase after CreatePGDatabase, restated over the state before the oid was issued. */
  lemma DatabaseCompose(s: State, s1: State)
    requires var a, o, f := s.nextAddr, s.nextOid, s.fillers;
             && Inv(s1) && s1.pgDatabase == a && s1.pgTablespace == s.pgTablespace
             && s1.tables == s.tables[a := Table(o, NewColumns(DATABASE_SCHEMA_COLS + f.database, o + 1))]
             && s1.storage == s.storage[a := []]
             && s1.nextOid == TablespaceOid(o, f) && s1.nextAddr == a + 1
             && s1.fillers == f && s1.nameMap == s.nameMap && s1.tableMap == s.tableMap[DEFAULT_DATABASE_OID := map[]]
    ensures var r, a, o, f := PopulatePGDatabase(s1), s.nextAddr, s.nextOid, s.fillers;
            && Inv(r) && r.fillers == f && r.pgDatabase == a && r.pgTablespace == s.pgTablespace
            && r.nextOid == TablespaceOid(o, f) && r.nextAddr == a + 1
            && r.tables == s.tables[a := Table(o, NewColumns(DATABASE_SCHEMA_COLS + f.database, o + 1))]
            && r.storage == s.storage[a := [EntryRow(DEFAULT_DATABASE_OID, DEFAULT_DATABASE_NAME, Fill(f.database))]]
            && r.tableMap == s.tableMap[DEFAULT_DATABASE_OID := map[]] && r.nameMap == s.nameMap
  {
    var row := EntryRow(DEFAULT_DATABASE_OID, DEFAULT_DATABASE_NAME, Fill(s.fillers.database));
    assert [] + [row] == [row];
  }

  /** pg_tablespace at the next address, under the counter's oid, holding pg_global and then pg_default. */
  lemma WithPGTablespaceEffect(s: State)
    requires Inv(s)
    ensures var r, a, t, f := WithPGTablespace(s), s.nextAddr, s.nextOid, s.fillers;
            var g := t + 1 + |TABLESPACE_SCHEMA_COLS| + |f.tablespace|;
            && Inv(r) && r.fillers == f && r.pgTablespace == a && r.pgDatabase == s.pgDatabase
            && r.nextOid == g + 2 && r.nextAddr == a + 1
            && r.tables == s.tables[a := Table(t, NewColumns(TABLESPACE_SCHEMA_COLS + f.tablespace, t + 1))]
            && r.storage == s.storage[a := [EntryRow(g, "pg_global", Fill(f.tablespace)),
                                            EntryRow(g + 1, "pg_default", Fill(f.tablespace))]]
            && r.tableMap == s.tableMap && r.nameMap == s.nameMap
  {
    IssueKeeps(s);
    CreatePGTablespaceEffect(Issue(s), s.nextOid);
    TablespaceCompose(s, CreatePGTablespace(Issue(s), s.nextOid));
  }

  /** PopulatePGTablespace after CreatePGTablespace, restated over the state before the oid was issued. */
  lemma TablespaceCompose(s: State, s1: State)
    requires var a, t, f := s.nextAddr, s.nextOid, s.fillers;
             && Inv(s1) && s1.pgTablespace == a && s1.pgDatabase == s.pgDatabase
             && s1.tables == s.tables[a := Table(t, NewColumns(TABLESPACE_SCHEMA_COLS + f.tablespace, t + 1))]
             && s1.storage == s.storage[a := []]
             && s1.nextOid == t + 1 + |TABLESPACE_SCHEMA_COLS| + |f.tablespace| && s1.nextAddr == a + 1
             && s1.fillers == f && s1.tableMap == s.tableMap && s1.nameMap == s.nameMap
    ensures var r, a, t, f := PopulatePGTablespace(s1), s.nextAddr, s.nextOid, s.fillers;
            var g := t + 1 + |TABLESPACE_SCHEMA_COLS| + |f.tablespace|;
            && Inv(r) && r.fillers == f && r.pgTablespace == a && r.pgDatabase == s.pgDatabase
            && r.nextOid == g + 2 && r.nextAddr == a + 1
            && r.tables == s.tables[a := Table(t, NewColumns(TABLESPACE_SCHEMA_COLS + f.tablespace, t + 1))]
            && r.storage == s.storage[a := [EntryRow(g, "pg_global", Fill(f.tablespace)),
                                            EntryRow(g + 1, "pg_default", Fill(f.tablespace))]]
            && r.tableMap == s.tableMap && r.nameMap == s.nameMap
  {
    PopulatePGTablespaceKeeps(s1);
    var g := s1.nextOid;
    var rows := [EntryRow(g, "pg_global", Fill(s.fillers.tablespace)), EntryRow(g + 1, "pg_default", Fill(s.fillers.tablespace))];
    assert [] + rows == rows;
  }

  /**
   * The global relations in closed form: pg_database and pg_tablespace at the two next
   * addresses, each with its used and filler columns; pg_database holds the default database
   * "terrier", pg_tablespace holds pg_global and pg_default; the default database has an empty
   * table directory.
   */
  lemma BootstrapGlobalsEffect(s: State)
    requires Inv(s) && DEFAULT_DATABASE_OID !in s.nameMap
    ensures var r, a, o, f := BootstrapGlobals(s), s.nextAddr, s.nextOid, s.fillers;
            var t, g := TablespaceOid(o, f), GlobalOid(o, f);
            && Inv(r) && r.fillers == f && r.pgDatabase == a && r.pgTablespace == a + 1
            && r.nextOid == g + 2 && r.nextAddr == a + 2
            && r.tables == s.tables[a := Table(o, NewColumns(DATABASE_SCHEMA_COLS + f.database, o + 1))]
                                   [a + 1 := Table(t, NewColumns(TABLESPACE_SCHEMA_COLS + f.tablespace, t + 1))]
            && r.storage == s.storage[a := [EntryRow(DEFAULT_DATABASE_OID, DEFAULT_DATABASE_NAME, Fill(f.database))]]
                                     [a + 1 := [EntryRow(g, "pg_global", Fill(f.tablespace)),
                                                EntryRow(g + 1, "pg_default", Fill(f.tablespace))]]
            && r.tableMap == s.tableMap[DEFAULT_DATABASE_OID := map[]] && r.nameMap == s.nameMap
  {
    WithPGDatabaseEffect(s);
    var s2 := WithPGDatabase(s);
    WithPGTablespaceEffect(s2);
    GlobalsCompose(s, s2, WithPGTablespace(s2));
  }

  /** WithPGTablespace's effect after WithPGDatabase, restated over the state before both. */
  lemma GlobalsCompose(s: State, s2: State, r: State)
    requires Supported(s.fillers.database) && Supported(s.fillers.tablespace)
    requires var a, o, f := s.nextAddr, s.nextOid, s.fillers;
             && s2.fillers == f && s2.pgDatabase == a
             && s2.nextOid == TablespaceOid(o, f) && s2.nextAddr == a + 1
             && s2.tables == s.tables[a := Table(o, NewColumns(DATABASE_SCHEMA_COLS + f.database, o + 1))]
             && s2.storage == s.storage[a := [EntryRow(DEFAULT_DATABASE_OID, DEFAULT_DATABASE_NAME, Fill(f.database))]]
             && s2.tableMap == s.tableMap[DEFAULT_DATABASE_OID := map[]] && s2.nameMap == s.nameMap
    requires var a, t, f := s2.nextAddr, s2.nextOid, s2.fillers;
             var g := t + 1 + |TABLESPACE_SCHEMA_COLS| + |f.tablespace|;
             && r.fillers == f && r.pgTablespace == a && r.pgDatabase == s2.pgDatabase
             && r.nextOid == g + 2 && r.nextAddr == a + 1
             && r.tables == s2.tables[a := Table(t, NewColumns(TABLESPACE_SCHEMA_COLS + f.tablespace, t + 1))]
             && r.storage == s2.storage[a := [EntryRow(g, "pg_global", Fill(f.tablespace)),
                                              EntryRow(g + 1, "pg_default", Fill(f.tablespace))]]
             && r.tableMap == s2.tableMap && r.nameMap == s2.nameMap
    ensures var a, o, f := s.nextAddr, s.nextOid, s.fillers;
            var t, g := TablespaceOid(o, f), GlobalOid(o, f);
            && r.fillers == f && r.pgDatabase == a && r.pgTablespace == a + 1
            && r.nextOid == g + 2 && r.nextAddr == a + 2
            && r.tables == s.tables[a := Table(o, NewColumns(DATABASE_SCHEMA_COLS + f.database, o + 1))]
                                   [a + 1 := Table(t, NewColumns(TABLESPACE_SCHEMA_COLS + f.tablespace, t + 1))]
            && r.storage == s.storage[a := [EntryRow(DEFAULT_DATABASE_OID, DEFAULT_DATABASE_NAME, Fill(f.database))]]
                                     [a + 1 := [EntryRow(g, "pg_global", Fill(f.tablespace)),
                                                EntryRow(g + 1, "pg_default", Fill(f.tablespace))]]
            && r.tableMap == s.tableMap[DEFAULT_DATABASE_OID := map[]] && r.nameMap == s.nameMap
  {
  }

  /** Both global relations are found under `db` once registered, and nothing but the directories changes. */
  lemma RegisterGlobalsEffect(s: State, db: nat)
    requires Valid(s) && db < s.nextOid
    requires s.tables[s.pgDatabase].oid != s.tables[s.pgTablespace].oid
    ensures var r := RegisterGlobals(s, db);
            && Valid(r) && GlobalsRegistered(r, db)
            && Found(r, db, "pg_database") == s.pgDatabase && Found(r, db, "pg_tablespace") == s.pgTablespace
            && r == s.(tableMap := r.tableMap, nameMap := r.nameMap)
  {
    RegisterKeeps(s, db, "pg_database", s.pgDatabase);
    RegisterKeeps(Register(s, db, "pg_database", s.pgDatabase), db, "pg_tablespace", s.pgTablespace);
  }

  /**
   * pg_attribute is a new table at the next address with its six columns, and it holds the
   * attribute rows of itself, of pg_database and of pg_tablespace, in that order.
   */
  lemma CreatePGAttributeEffect(s: State, db: nat)
    requires Inv(s) && GlobalsRegistered(s, db)
    ensures var r := CreatePGAttribute(s, db);
            var a, o := s.nextAddr, s.nextOid;
            var dbT, tsT := s.tables[Found(s, db, "pg_database")], s.tables[Found(s, db, "pg_tablespace")];
            && r.tables == s.tables[a := Table(o, AttributeColumns(o + 1))]
            && r.storage == s.storage[a := AttributeRows(o, AttributeColumns(o + 1)) +
                                          AttributeRows(dbT.oid, dbT.columns) + AttributeRows(tsT.oid, tsT.columns)]
            && r.nextOid == o + 7 && r.nextAddr == a + 1
            && r.fillers == s.fillers && r.pgDatabase == s.pgDatabase && r.pgTablespace == s.pgTablespace
            && r.tableMap == AttributeTable(s, db).tableMap && r.nameMap == AttributeTable(s, db).nameMap
  {
    AttributeTableEffect(s, db);
    AttributeTableKeepsLookup(s, db, db, "pg_database");
    AttributeTableKeepsLookup(s, db, db, "pg_tablespace");
    var pd, pt := Found(s, db, "pg_database"), Found(s, db, "pg_tablespace");
    assert pd != s.nextAddr && pt != s.nextAddr;
    DescribeCompose(s, db, AttributeTable(s, db), pd, pt);
  }

  /**
   * The three AddColumnsToPGAttribute calls of CreatePGAttribute, after pg_attribute is made,
   * restated over the state before it was made.
   */
  lemma DescribeCompose(s: State, db: nat, s1: State, pd: nat, pt: nat)
    requires var a, o := s.nextAddr, s.nextOid;
             && s1.tables == s.tables[a := Table(o, AttributeColumns(o + 1))]
             && s1.storage == s.storage[a := []]
             && s1.nextOid == o + 7 && s1.nextAddr == a + 1
             && s1.fillers == s.fillers && s1.pgDatabase == s.pgDatabase && s1.pgTablespace == s.pgTablespace
             && Finds(s1, db, "pg_attribute", a) && Finds(s1, db, "pg_database", pd) && Finds(s1, db, "pg_tablespace", pt)
             && pd in s.tables && pt in s.tables && pd != a && pt != a
    ensures var s2 := Describe(s1, db, s.nextAddr);
            var s3 := Describe(s2, db, Found(s2, db, "pg_database"));
            var r := Describe(s3, db, Found(s3, db, "pg_tablespace"));
            var a, o := s.nextAddr, s.nextOid;
            var dbT, tsT := s.tables[pd], s.tables[pt];
            && r.tables == s.tables[a := Table(o, AttributeColumns(o + 1))]
            && r.storage == s.storage[a := AttributeRows(o, AttributeColumns(o + 1)) +
                                          AttributeRows(dbT.oid, dbT.columns) + AttributeRows(tsT.oid, tsT.columns)]
            && r.nextOid == o + 7 && r.nextAddr == a + 1
            && r.fillers == s.fillers && r.pgDatabase == s.pgDatabase && r.pgTablespace == s.pgTablespace
            && r.tableMap == s1.tableMap && r.nameMap == s1.nameMap
  {
    var r1 := AttributeRows(s.nextOid, AttributeColumns(s.nextOid + 1));
    assert [] + r1 == r1;
  }

  /** After CreatePGAttribute `db` finds pg_attribute where it was created; every other lookup by name is unchanged. */
  lemma CreatePGAttributeFinds(s: State, db: nat, db': nat, name': string)
    requires Inv(s) && GlobalsRegistered(s, db)
    ensures var r := CreatePGAttribute(s, db);
            && GetDatabaseCatalogByName(r.tableMap, r.nameMap, db, "pg_attribute") == Some(s.nextAddr)
            && (db' != db || name' != "pg_attribute" ==>
                  GetDatabaseCatalogByName(r.tableMap, r.nameMap, db', name') ==
                  GetDatabaseCatalogByName(s.tableMap, s.nameMap, db', name'))
  {
    CreatePGAttributeEffect(s, db);
    AttributeTableEffect(s, db);
    if db' != db || name' != "pg_attribute" {
      AttributeTableKeepsLookup(s, db, db', name');
    }
  }

  lemma CreatePGAttributeKeeps(s: State, db: nat)
    requires Inv(s) && GlobalsRegistered(s, db) && db < s.nextOid
    ensures Inv(CreatePGAttribute(s, db))
  {
    AttributeTableKeeps(s, db);
    AttributeTableEffect(s, db);
    AttributeTableKeepsLookup(s, db, db, "pg_database");
    AttributeTableKeepsLookup(s, db, db, "pg_tablespace");
    var s1 := AttributeTable(s, db);
    DescribeKeeps(s1, db, s.nextAddr);
    var s2 := Describe(s1, db, s.nextAddr);
    DescribeKeeps(s2, db, Found(s2, db, "pg_database"));
    var s3 := Describe(s2, db, Found(s2, db, "pg_database"));
    DescribeKeeps(s3, db, Found(s3, db, "pg_tablespace"));
  }

  /**
   * pg_namespace is a new table at the next address; pg_attribute gains its attribute rows,
   * and it holds pg_catalog and then public under the next two oids.
   */
  lemma CreatePGNameSpaceEffect(s: State, db: nat)
    requires Inv(s) && Registered(s, db, "pg_attribute")
    ensures var r := CreatePGNameSpace(s, db);
            var ns, o, attr := s.nextAddr, s.nextOid, Found(s, db, "pg_attribute");
            && r.tables == s.tables[ns := Table(o, NewColumns(NAMESPACE_SCHEMA_COLS, o + 1))]
            && r.storage == s.storage[attr := s.storage[attr] + AttributeRows(o, NewColumns(NAMESPACE_SCHEMA_COLS, o + 1))]
                                     [ns := [EntryRow(o + 3, "pg_catalog", []), EntryRow(o + 4, "public", [])]]
            && r.nextOid == o + 5 && r.nextAddr == ns + 1
            && r.fillers == s.fillers && r.pgDatabase == s.pgDatabase && r.pgTablespace == s.pgTablespace
            && r.tableMap == HandleTable(s, db, "pg_namespace", NAMESPACE_SCHEMA_COLS).tableMap
            && r.nameMap == HandleTable(s, db, "pg_namespace", NAMESPACE_SCHEMA_COLS).nameMap
  {
    var attr := Found(s, db, "pg_attribute");
    HandleTableEffect(s, db, "pg_namespace", NAMESPACE_SCHEMA_COLS);
    HandleTableKeepsLookup(s, db, "pg_namespace", NAMESPACE_SCHEMA_COLS, db, "pg_attribute");
    assert attr != s.nextAddr;
    NamespaceRowsCompose(s, db, HandleTable(s, db, "pg_namespace", NAMESPACE_SCHEMA_COLS), attr);
  }

  /**
   * The rest of CreatePGNameSpace after pg_namespace is made: its attribute rows, then
   * pg_catalog and public under the next two oids, restated over the state before it was made.
   */
  lemma NamespaceRowsCompose(s: State, db: nat, s1: State, attr: nat)
    requires var ns, o := s.nextAddr, s.nextOid;
             && s1.tables == s.tables[ns := Table(o, NewColumns(NAMESPACE_SCHEMA_COLS, o + 1))]
             && s1.storage == s.storage[ns := []]
             && s1.nextOid == o + 1 + |NAMESPACE_SCHEMA_COLS| && s1.nextAddr == ns + 1
             && s1.fillers == s.fillers && s1.pgDatabase == s.pgDatabase && s1.pgTablespace == s.pgTablespace
             && Finds(s1, db, "pg_attribute", attr) && attr in s.storage && attr != ns
    ensures var s2 := Describe(s1, db, s.nextAddr);
            var c := s2.nextOid;
            var r := WithRows(Issue(Issue(s2)), s.nextAddr, [EntryRow(c, "pg_catalog", []), EntryRow(c + 1, "public", [])]);
            var ns, o := s.nextAddr, s.nextOid;
            && r.tables == s.tables[ns := Table(o, NewColumns(NAMESPACE_SCHEMA_COLS, o + 1))]
            && r.storage == s.storage[attr := s.storage[attr] + AttributeRows(o, NewColumns(NAMESPACE_SCHEMA_COLS, o + 1))]
                                     [ns := [EntryRow(o + 3, "pg_catalog", []), EntryRow(o + 4, "public", [])]]
            && r.nextOid == o + 5 && r.nextAddr == ns + 1
            && r.fillers == s.fillers && r.pgDatabase == s.pgDatabase && r.pgTablespace == s.pgTablespace
            && r.tableMap == s1.tableMap && r.nameMap == s1.nameMap
  {
    var ns, o := s.nextAddr, s.nextOid;
    var rows := AttributeRows(o, NewColumns(NAMESPACE_SCHEMA_COLS, o + 1));
    var s2 := Describe(s1, db, ns);
    assert s2.storage == s.storage[ns := []][attr := s.storage[attr] + rows];
    var e := [EntryRow(o + 3, "pg_catalog", []), EntryRow(o + 4, "public", [])];
    assert [] + e == e;
    assert s.storage[ns := []][attr := s.storage[attr] + rows][ns := e] == s.storage[attr := s.storage[attr] + rows][ns := e];
  }

  lemma CreatePGNameSpaceKeeps(s: State, db: nat)
    requires Inv(s) && Registered(s, db, "pg_attribute") && db < s.nextOid
    ensures Inv(CreatePGNameSpace(s, db))
  {
    var ns := s.nextAddr;
    HandleTableKeeps(s, db, "pg_namespace", NAMESPACE_SCHEMA_COLS);
    HandleTableEffect(s, db, "pg_namespace", NAMESPACE_SCHEMA_COLS);
    HandleTableKeepsLookup(s, db, "pg_namespace", NAMESPACE_SCHEMA_COLS, db, "pg_attribute");
    var s1 := HandleTable(s, db, "pg_namespace", NAMESPACE_SCHEMA_COLS);
    DescribeKeeps(s1, db, ns);
    var s2 := Describe(s1, db, ns);
    IssueKeeps(s2);
    IssueKeeps(Issue(s2));
  }

  /**
   * pg_class is a new table at the next address holding the five rows CreatePGClass adds, each
   * with the address and oid the directories give for its name.
   */
  lemma CreatePGClassEffect(s: State, db: nat)
    requires Inv(s) && ClassLookupsOk(s, db)
    ensures var r := CreatePGClass(s, db);
            var cls, o := s.nextAddr, s.nextOid;
            var nsOid := LookupOid(s.storage[Found(s, db, "pg_namespace")], "pg_catalog").value;
            var g := LookupOid(s.storage[s.pgTablespace], "pg_global").value;
            var d := LookupOid(s.storage[s.pgTablespace], "pg_default").value;
            && r.tables == s.tables[cls := Table(o, NewColumns(CLASS_SCHEMA_COLS, o + 1))]
            && r.storage == s.storage[cls :=
                 [ClassEntry(s, db, "pg_database", nsOid, g), ClassEntry(s, db, "pg_tablespace", nsOid, g),
                  ClassEntry(s, db, "pg_namespace", nsOid, d), ClassRow(cls, o, "pg_class", nsOid, d),
                  ClassEntry(s, db, "pg_attribute", nsOid, d)]]
            && r.nextOid == o + 6 && r.nextAddr == cls + 1
            && r.fillers == s.fillers && r.pgDatabase == s.pgDatabase && r.pgTablespace == s.pgTablespace
            && r.tableMap == HandleTable(s, db, "pg_class", CLASS_SCHEMA_COLS).tableMap
            && r.nameMap == HandleTable(s, db, "pg_class", CLASS_SCHEMA_COLS).nameMap
  {
    var cls := s.nextAddr;
    HandleTableEffect(s, db, "pg_class", CLASS_SCHEMA_COLS);
    HandleTableKeepsLookup(s, db, "pg_class", CLASS_SCHEMA_COLS, db, "pg_database");
    HandleTableKeepsLookup(s, db, "pg_class", CLASS_SCHEMA_COLS, db, "pg_tablespace");
    HandleTableKeepsLookup(s, db, "pg_class", CLASS_SCHEMA_COLS, db, "pg_namespace");
    HandleTableKeepsLookup(s, db, "pg_class", CLASS_SCHEMA_COLS, db, "pg_attribute");
    var s1 := HandleTable(s, db, "pg_class", CLASS_SCHEMA_COLS);
    var pn := Found(s, db, "pg_namespace");
    assert Found(s1, db, "pg_namespace") == pn && pn != cls && s1.storage[pn] == s.storage[pn];
    assert s.pgTablespace != cls && s1.storage[s.pgTablespace] == s.storage[s.pgTablespace];
    var nsOid := LookupOid(s.storage[pn], "pg_catalog").value;
    var g := LookupOid(s.storage[s.pgTablespace], "pg_global").value;
    var d := LookupOid(s.storage[s.pgTablespace], "pg_default").value;
    ClassEntryKept(s, s1, db, "pg_database", nsOid, g);
    ClassEntryKept(s, s1, db, "pg_tablespace", nsOid, g);
    ClassEntryKept(s, s1, db, "pg_namespace", nsOid, d);
    ClassEntryKept(s, s1, db, "pg_attribute", nsOid, d);
    var rows := [ClassEntry(s, db, "pg_database", nsOid, g), ClassEntry(s, db, "pg_tablespace", nsOid, g),
                 ClassEntry(s, db, "pg_namespace", nsOid, d), ClassRow(cls, s.nextOid, "pg_class", nsOid, d),
                 ClassEntry(s, db, "pg_attribute", nsOid, d)];
    assert [] + rows == rows;
  }

  /** A pg_class row for a table the directories still find at the same, unchanged table is the same row. */
  lemma ClassEntryKept(s: State, s': State, db: nat, name: string, nsOid: int, tsOid: int)
    requires Inv(s) && Registered(s, db, name) && Registered(s', db, name)
    requires Found(s', db, name) == Found(s, db, name) && Found(s, db, name) in s'.tables
    requires s'.tables[Found(s, db, name)] == s.tables[Found(s, db, name)]
    ensures ClassEntry(s', db, name, nsOid, tsOid) == ClassEntry(s, db, name, nsOid, tsOid)
  {
  }

  lemma CreatePGClassKeeps(s: State, db: nat)
    requires Inv(s) && ClassLookupsOk(s, db) && db < s.nextOid
    ensures Inv(CreatePGClass(s, db))
  {
    HandleTableKeeps(s, db, "pg_class", CLASS_SCHEMA_COLS);
  }
}

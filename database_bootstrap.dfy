/**
 * BootstrapDatabase and the whole of Bootstrap: the catalog relations one database gets, and
 * the catalog a freshly constructed Catalog object holds.
 */
module DatabaseBootstrap {
  import opened Wrappers
  import opened Values
  import opened Oids
  import opened Fillers
  import opened CatalogRows
  import opened Directory
  import opened CatalogState
  import opened BootstrapSteps

  /** pg_tablespace is stored and holds the tablespaces pg_global and pg_default. */
  ghost predicate TablespacesSeeded(s: State)
  {
    && s.pgTablespace in s.storage
    && LookupOid(s.storage[s.pgTablespace], "pg_global").Some?
    && LookupOid(s.storage[s.pgTablespace], "pg_default").Some?
  }

  /** Both global relations exist and pg_tablespace is seeded. */
  ghost predicate GlobalsStored(s: State)
  {
    s.pgDatabase in s.tables && s.pgTablespace in s.tables && TablespacesSeeded(s)
  }

  /**
   * What BootstrapDatabase relies on: both global relations exist under different oids (so
   * registering the second does not overwrite the first), pg_tablespace is seeded, and the
   * database oid lies below the counter.
   */
  ghost predicate ReadyFor(s: State, db: nat)
  {
    && Valid(s) && db < s.nextOid && TablespacesSeeded(s)
    && s.tables[s.pgDatabase].oid != s.tables[s.pgTablespace].oid
  }

  /**
   * BootstrapDatabase(db): pg_database and pg_tablespace registered under `db`, then
   * pg_attribute, pg_namespace and pg_class in that order, and finally pg_attrdef.
   */
  ghost function BootstrapDatabase(s: State, db: nat): State
    requires ReadyFor(s, db)
  {
    ClassStage(s, db);
    CreatePGAttrDef(WithClass(s, db), db)
  }

  /** The first lines of BootstrapDatabase and CreatePGAttribute. */
  ghost function WithAttribute(s: State, db: nat): State
    requires ReadyFor(s, db)
  {
    RegisterGlobalsEffect(s, db);
    CreatePGAttribute(RegisterGlobals(s, db), db)
  }

  /** BootstrapDatabase up to CreatePGNameSpace. */
  ghost function WithNamespace(s: State, db: nat): State
    requires ReadyFor(s, db)
  {
    AttributeStage(s, db);
    CreatePGNameSpace(WithAttribute(s, db), db)
  }

  /** BootstrapDatabase up to CreatePGClass. */
  ghost function WithClass(s: State, db: nat): State
    requires ReadyFor(s, db)
  {
    NamespaceStage(s, db);
    CreatePGClass(WithNamespace(s, db), db)
  }

  /** What BootstrapDatabase keeps of the state it started from, at every stage. */
  ghost predicate Kept(s: State, db: nat, r: State)
  {
    && Valid(r) && db < r.nextOid
    && r.fillers == s.fillers && r.pgDatabase == s.pgDatabase && r.pgTablespace == s.pgTablespace
    && Finds(r, db, "pg_database", s.pgDatabase) && Finds(r, db, "pg_tablespace", s.pgTablespace)
    && Finds(r, db, "pg_attribute", s.nextAddr)
  }

  /** The state after CreatePGAttribute, in terms of the state BootstrapDatabase started from. */
  ghost predicate AfterAttribute(s: State, db: nat, r: State)
    requires Valid(s)
  {
    var a, o := s.nextAddr, s.nextOid;
    var dbT, tsT := s.tables[s.pgDatabase], s.tables[s.pgTablespace];
    && Kept(s, db, r)
    && r.nextOid == o + 7 && r.nextAddr == a + 1
    && r.tables == s.tables[a := Table(o, AttributeColumns(o + 1))]
    && r.storage == s.storage[a := AttributeRows(o, AttributeColumns(o + 1)) +
                                   AttributeRows(dbT.oid, dbT.columns) + AttributeRows(tsT.oid, tsT.columns)]
  }

  /** The state after CreatePGNameSpace. */
  ghost predicate AfterNamespace(s: State, db: nat, r: State)
    requires Valid(s)
  {
    var a, o := s.nextAddr, s.nextOid;
    && Kept(s, db, r) && Finds(r, db, "pg_namespace", a + 1)
    && r.nextOid == o + 12 && r.nextAddr == a + 2
    && r.tables == s.tables[a := Table(o, AttributeColumns(o + 1))]
                           [a + 1 := Table(o + 7, NewColumns(NAMESPACE_SCHEMA_COLS, o + 8))]
    && r.storage == s.storage[a := DatabaseAttributeRows(s)][a + 1 := DatabaseNamespaceRows(o)]
  }

  /** The state after CreatePGClass. */
  ghost predicate AfterClass(s: State, db: nat, r: State)
    requires Valid(s) && TablespacesSeeded(s)
  {
    var a, o := s.nextAddr, s.nextOid;
    && Kept(s, db, r) && Finds(r, db, "pg_namespace", a + 1) && Finds(r, db, "pg_class", a + 2)
    && r.nextOid == o + 18 && r.nextAddr == a + 3
    && r.tables == s.tables[a := Table(o, AttributeColumns(o + 1))]
                           [a + 1 := Table(o + 7, NewColumns(NAMESPACE_SCHEMA_COLS, o + 8))]
                           [a + 2 := Table(o + 12, NewColumns(CLASS_SCHEMA_COLS, o + 13))]
    && r.storage == s.storage[a := DatabaseAttributeRows(s)][a + 1 := DatabaseNamespaceRows(o)][a + 2 := DatabaseClassRows(s)]
  }

  lemma AttributeStage(s: State, db: nat)
    requires ReadyFor(s, db)
    ensures var r := WithAttribute(s, db);
            && AfterAttribute(s, db, r) && TablespacesSeeded(r)
            && r.storage[s.pgTablespace] == s.storage[s.pgTablespace]
  {
    AttributeKept(s, db);
    AttributeShape(s, db);
  }

  lemma AttributeKept(s: State, db: nat)
    requires ReadyFor(s, db)
    ensures Kept(s, db, WithAttribute(s, db))
  {
    RegisterGlobalsEffect(s, db);
    var s1 := RegisterGlobals(s, db);
    CreatePGAttributeKeeps(s1, db);
    CreatePGAttributeFinds(s1, db, db, "pg_database");
    CreatePGAttributeFinds(s1, db, db, "pg_tablespace");
  }

  lemma AttributeShape(s: State, db: nat)
    requires ReadyFor(s, db)
    ensures var r := WithAttribute(s, db);
            var a, o := s.nextAddr, s.nextOid;
            var dbT, tsT := s.tables[s.pgDatabase], s.tables[s.pgTablespace];
            && r.nextOid == o + 7 && r.nextAddr == a + 1
            && r.tables == s.tables[a := Table(o, AttributeColumns(o + 1))]
            && r.storage == s.storage[a := AttributeRows(o, AttributeColumns(o + 1)) +
                                           AttributeRows(dbT.oid, dbT.columns) + AttributeRows(tsT.oid, tsT.columns)]
  {
    RegisterGlobalsEffect(s, db);
    var s1 := RegisterGlobals(s, db);
    CreatePGAttributeEffect(s1, db);
    AttributeCompose(s, s1, CreatePGAttribute(s1, db), Found(s1, db, "pg_database"), Found(s1, db, "pg_tablespace"));
  }

  /** CreatePGAttribute's effect after RegisterGlobals, restated over the state before both. */
  lemma AttributeCompose(s: State, s1: State, r: State, pd: nat, pt: nat)
    requires s1.tables == s.tables && s1.storage == s.storage && s1.nextOid == s.nextOid && s1.nextAddr == s.nextAddr
    requires pd == s.pgDatabase && pt == s.pgTablespace && pd in s.tables && pt in s.tables
    requires var a, o := s1.nextAddr, s1.nextOid;
             var dbT, tsT := s1.tables[pd], s1.tables[pt];
             && r.tables == s1.tables[a := Table(o, AttributeColumns(o + 1))]
             && r.storage == s1.storage[a := AttributeRows(o, AttributeColumns(o + 1)) +
                                             AttributeRows(dbT.oid, dbT.columns) + AttributeRows(tsT.oid, tsT.columns)]
             && r.nextOid == o + 7 && r.nextAddr == a + 1
    ensures var a, o := s.nextAddr, s.nextOid;
            var dbT, tsT := s.tables[s.pgDatabase], s.tables[s.pgTablespace];
            && r.nextOid == o + 7 && r.nextAddr == a + 1
            && r.tables == s.tables[a := Table(o, AttributeColumns(o + 1))]
            && r.storage == s.storage[a := AttributeRows(o, AttributeColumns(o + 1)) +
                                           AttributeRows(dbT.oid, dbT.columns) + AttributeRows(tsT.oid, tsT.columns)]
  {
  }

  lemma NamespaceStage(s: State, db: nat)
    requires ReadyFor(s, db)
    ensures var r := WithNamespace(s, db);
            && AfterNamespace(s, db, r) && ClassLookupsOk(r, db) && TablespacesSeeded(r)
            && s.pgTablespace in r.storage && r.storage[s.pgTablespace] == s.storage[s.pgTablespace]
            && s.nextAddr + 1 in r.storage
            && LookupOid(r.storage[s.nextAddr + 1], "pg_catalog") == Some(s.nextOid + 10)
  {
    AttributeStage(s, db);
    var s2 := WithAttribute(s, db);
    NamespaceLookups(s2, db);
    NamespaceRows(s, db);
    GlobalsBelowNext(s);
    NamespaceFinds(s, db, s2, CreatePGNameSpace(s2, db));
  }

  /** The lookups after CreatePGNameSpace, restated over the state BootstrapDatabase started from. */
  lemma NamespaceFinds(s: State, db: nat, s2: State, r: State)
    requires GlobalsStored(s) && s.pgTablespace < s.nextAddr
    requires Finds(s2, db, "pg_database", s.pgDatabase) && Finds(s2, db, "pg_tablespace", s.pgTablespace)
    requires Finds(s2, db, "pg_attribute", s.nextAddr) && s2.nextAddr == s.nextAddr + 1
    requires && Finds(r, db, "pg_database", Found(s2, db, "pg_database"))
             && Finds(r, db, "pg_tablespace", Found(s2, db, "pg_tablespace"))
             && Finds(r, db, "pg_attribute", Found(s2, db, "pg_attribute"))
             && Finds(r, db, "pg_namespace", s2.nextAddr)
    requires r.pgTablespace == s.pgTablespace
    requires r.storage == s.storage[s.nextAddr := DatabaseAttributeRows(s)][s.nextAddr + 1 := DatabaseNamespaceRows(s.nextOid)]
    ensures && Finds(r, db, "pg_database", s.pgDatabase) && Finds(r, db, "pg_tablespace", s.pgTablespace)
            && Finds(r, db, "pg_attribute", s.nextAddr) && Finds(r, db, "pg_namespace", s.nextAddr + 1)
    ensures ClassLookupsOk(r, db) && TablespacesSeeded(r) && r.storage[s.pgTablespace] == s.storage[s.pgTablespace]
    ensures LookupOid(r.storage[s.nextAddr + 1], "pg_catalog") == Some(s.nextOid + 10)
  {
    PgCatalogOid(s.nextOid);
  }

  /** CreatePGNameSpace keeps the names it does not define and adds pg_namespace at the next address. */
  lemma NamespaceLookups(s: State, db: nat)
    requires Valid(s) && GlobalsRegistered(s, db) && Registered(s, db, "pg_attribute") && db < s.nextOid
    ensures var r := CreatePGNameSpace(s, db);
            && Valid(r) && db < r.nextOid
            && r.fillers == s.fillers && r.pgDatabase == s.pgDatabase && r.pgTablespace == s.pgTablespace
            && Finds(r, db, "pg_database", Found(s, db, "pg_database"))
            && Finds(r, db, "pg_tablespace", Found(s, db, "pg_tablespace"))
            && Finds(r, db, "pg_attribute", Found(s, db, "pg_attribute"))
            && Finds(r, db, "pg_namespace", s.nextAddr)
  {
    var cols := NAMESPACE_SCHEMA_COLS;
    CreatePGNameSpaceEffect(s, db);
    HandleTableEffect(s, db, "pg_namespace", cols);
    HandleTableKeepsLookup(s, db, "pg_namespace", cols, db, "pg_database");
    HandleTableKeepsLookup(s, db, "pg_namespace", cols, db, "pg_tablespace");
    HandleTableKeepsLookup(s, db, "pg_namespace", cols, db, "pg_attribute");
    CreatePGNameSpaceKeeps(s, db);
  }

  /** After CreatePGNameSpace pg_attribute also describes pg_namespace, which holds pg_catalog and public. */
  lemma NamespaceRows(s: State, db: nat)
    requires ReadyFor(s, db)
    ensures var r := WithNamespace(s, db);
            var a, o := s.nextAddr, s.nextOid;
            && r.nextOid == o + 12 && r.nextAddr == a + 2
            && r.tables == s.tables[a := Table(o, AttributeColumns(o + 1))]
                                   [a + 1 := Table(o + 7, NewColumns(NAMESPACE_SCHEMA_COLS, o + 8))]
            && r.storage == s.storage[a := DatabaseAttributeRows(s)][a + 1 := DatabaseNamespaceRows(o)]
  {
    AttributeKept(s, db);
    AttributeShape(s, db);
    var s2 := WithAttribute(s, db);
    CreatePGNameSpaceEffect(s2, db);
    NamespaceCompose(s, s2, CreatePGNameSpace(s2, db), Found(s2, db, "pg_attribute"));
  }

  /** CreatePGNameSpace's effect after CreatePGAttribute, restated over the state before both. */
  lemma NamespaceCompose(s: State, s2: State, r: State, attr: nat)
    requires s.pgDatabase in s.tables && s.pgTablespace in s.tables
    requires var a, o := s.nextAddr, s.nextOid;
             var dbT, tsT := s.tables[s.pgDatabase], s.tables[s.pgTablespace];
             && s2.nextOid == o + 7 && s2.nextAddr == a + 1 && attr == a
             && s2.tables == s.tables[a := Table(o, AttributeColumns(o + 1))]
             && s2.storage == s.storage[a := AttributeRows(o, AttributeColumns(o + 1)) +
                                             AttributeRows(dbT.oid, dbT.columns) + AttributeRows(tsT.oid, tsT.columns)]
    requires attr in s2.storage
    requires var ns, o := s2.nextAddr, s2.nextOid;
             && r.tables == s2.tables[ns := Table(o, NewColumns(NAMESPACE_SCHEMA_COLS, o + 1))]
             && r.storage == s2.storage[attr := s2.storage[attr] + AttributeRows(o, NewColumns(NAMESPACE_SCHEMA_COLS, o + 1))]
                                      [ns := [EntryRow(o + 3, "pg_catalog", []), EntryRow(o + 4, "public", [])]]
             && r.nextOid == o + 5 && r.nextAddr == ns + 1
    ensures var a, o := s.nextAddr, s.nextOid;
            && r.nextOid == o + 12 && r.nextAddr == a + 2
            && r.tables == s.tables[a := Table(o, AttributeColumns(o + 1))]
                                   [a + 1 := Table(o + 7, NewColumns(NAMESPACE_SCHEMA_COLS, o + 8))]
            && r.storage == s.storage[a := DatabaseAttributeRows(s)][a + 1 := DatabaseNamespaceRows(o)]
  {
  }

  /** pg_catalog is the first row of pg_namespace. */
  lemma PgCatalogOid(o: nat)
    ensures LookupOid(DatabaseNamespaceRows(o), "pg_catalog") == Some(o + 10)
  {
    assert FindNamed(DatabaseNamespaceRows(o), "pg_catalog") == Some(0);
  }

  lemma ClassStage(s: State, db: nat)
    requires ReadyFor(s, db)
    ensures AfterClass(s, db, WithClass(s, db))
  {
    NamespaceStage(s, db);
    var s3 := WithNamespace(s, db);
    ClassLookups(s3, db);
    ClassRows(s, db);
    ClassStageCompose(s, db, s3, WithClass(s, db));
  }

  /** CreatePGClass's lookups and rows after CreatePGNameSpace, restated as AfterClass. */
  lemma ClassStageCompose(s: State, db: nat, s3: State, r: State)
    requires Valid(s) && TablespacesSeeded(s)
    requires var a := s.nextAddr;
             && Finds(s3, db, "pg_database", s.pgDatabase) && Finds(s3, db, "pg_tablespace", s.pgTablespace)
             && Finds(s3, db, "pg_attribute", a) && Finds(s3, db, "pg_namespace", a + 1)
             && s3.fillers == s.fillers && s3.pgDatabase == s.pgDatabase && s3.pgTablespace == s.pgTablespace
             && s3.nextAddr == a + 2
    requires && Valid(r) && db < r.nextOid
             && r.fillers == s3.fillers && r.pgDatabase == s3.pgDatabase && r.pgTablespace == s3.pgTablespace
             && Finds(r, db, "pg_database", Found(s3, db, "pg_database"))
             && Finds(r, db, "pg_tablespace", Found(s3, db, "pg_tablespace"))
             && Finds(r, db, "pg_attribute", Found(s3, db, "pg_attribute"))
             && Finds(r, db, "pg_namespace", Found(s3, db, "pg_namespace"))
             && Finds(r, db, "pg_class", s3.nextAddr)
    requires var a, o := s.nextAddr, s.nextOid;
             && r.nextOid == o + 18 && r.nextAddr == a + 3
             && r.tables == s.tables[a := Table(o, AttributeColumns(o + 1))]
                                    [a + 1 := Table(o + 7, NewColumns(NAMESPACE_SCHEMA_COLS, o + 8))]
                                    [a + 2 := Table(o + 12, NewColumns(CLASS_SCHEMA_COLS, o + 13))]
             && r.storage == s.storage[a := DatabaseAttributeRows(s)][a + 1 := DatabaseNamespaceRows(o)]
                                      [a + 2 := DatabaseClassRows(s)]
    ensures AfterClass(s, db, r)
  {
  }

  /** CreatePGClass keeps the names it does not define and adds pg_class at the next address. */
  lemma ClassLookups(s: State, db: nat)
    requires Valid(s) && ClassLookupsOk(s, db) && db < s.nextOid
    ensures var r := CreatePGClass(s, db);
            && Valid(r) && db < r.nextOid
            && r.fillers == s.fillers && r.pgDatabase == s.pgDatabase && r.pgTablespace == s.pgTablespace
            && Finds(r, db, "pg_database", Found(s, db, "pg_database"))
            && Finds(r, db, "pg_tablespace", Found(s, db, "pg_tablespace"))
            && Finds(r, db, "pg_attribute", Found(s, db, "pg_attribute"))
            && Finds(r, db, "pg_namespace", Found(s, db, "pg_namespace"))
            && Finds(r, db, "pg_class", s.nextAddr)
  {
    var cols := CLASS_SCHEMA_COLS;
    CreatePGClassEffect(s, db);
    HandleTableEffect(s, db, "pg_class", cols);
    HandleTableKeepsLookup(s, db, "pg_class", cols, db, "pg_database");
    HandleTableKeepsLookup(s, db, "pg_class", cols, db, "pg_tablespace");
    HandleTableKeepsLookup(s, db, "pg_class", cols, db, "pg_attribute");
    HandleTableKeepsLookup(s, db, "pg_class", cols, db, "pg_namespace");
    CreatePGClassKeeps(s, db);
  }

  /** After CreatePGClass pg_class holds the five rows of the catalog relations. */
  lemma ClassRows(s: State, db: nat)
    requires ReadyFor(s, db)
    ensures var r := WithClass(s, db);
            var a, o := s.nextAddr, s.nextOid;
            && r.nextOid == o + 18 && r.nextAddr == a + 3
            && r.tables == s.tables[a := Table(o, AttributeColumns(o + 1))]
                                   [a + 1 := Table(o + 7, NewColumns(NAMESPACE_SCHEMA_COLS, o + 8))]
                                   [a + 2 := Table(o + 12, NewColumns(CLASS_SCHEMA_COLS, o + 13))]
            && r.storage == s.storage[a := DatabaseAttributeRows(s)][a + 1 := DatabaseNamespaceRows(o)]
                                     [a + 2 := DatabaseClassRows(s)]
  {
    GlobalsBelowNext(s);
    NamespaceStage(s, db);
    var s3 := WithNamespace(s, db);
    CreatePGClassEffect(s3, db);
    ClassCompose(s, db, s3, CreatePGClass(s3, db));
  }

  /** Both global relations lie below the next free address. */
  lemma GlobalsBelowNext(s: State)
    requires Valid(s)
    ensures s.pgDatabase < s.nextAddr && s.pgTablespace < s.nextAddr
  {
  }

  /** CreatePGClass's effect after CreatePGNameSpace, restated over the state BootstrapDatabase started from. */
  lemma ClassCompose(s: State, db: nat, s3: State, r: State)
    requires GlobalsStored(s)
    requires s.pgDatabase < s.nextAddr && s.pgTablespace < s.nextAddr
    requires var a, o := s.nextAddr, s.nextOid;
             && s3.nextOid == o + 12 && s3.nextAddr == a + 2 && s3.pgTablespace == s.pgTablespace
             && s3.tables == s.tables[a := Table(o, AttributeColumns(o + 1))]
                                     [a + 1 := Table(o + 7, NewColumns(NAMESPACE_SCHEMA_COLS, o + 8))]
             && s3.storage == s.storage[a := DatabaseAttributeRows(s)][a + 1 := DatabaseNamespaceRows(o)]
    requires Finds(s3, db, "pg_database", s.pgDatabase) && Finds(s3, db, "pg_tablespace", s.pgTablespace)
    requires Finds(s3, db, "pg_attribute", s.nextAddr) && Finds(s3, db, "pg_namespace", s.nextAddr + 1)
    requires ClassLookupsOk(s3, db)
    requires var cls, o := s3.nextAddr, s3.nextOid;
             var nsOid := LookupOid(s3.storage[Found(s3, db, "pg_namespace")], "pg_catalog").value;
             var g := LookupOid(s3.storage[s3.pgTablespace], "pg_global").value;
             var d := LookupOid(s3.storage[s3.pgTablespace], "pg_default").value;
             && r.tables == s3.tables[cls := Table(o, NewColumns(CLASS_SCHEMA_COLS, o + 1))]
             && r.storage == s3.storage[cls :=
                  [ClassEntry(s3, db, "pg_database", nsOid, g), ClassEntry(s3, db, "pg_tablespace", nsOid, g),
                   ClassEntry(s3, db, "pg_namespace", nsOid, d), ClassRow(cls, o, "pg_class", nsOid, d),
                   ClassEntry(s3, db, "pg_attribute", nsOid, d)]]
             && r.nextOid == o + 6 && r.nextAddr == cls + 1
    ensures var a, o := s.nextAddr, s.nextOid;
            && r.nextOid == o + 18 && r.nextAddr == a + 3
            && r.tables == s.tables[a := Table(o, AttributeColumns(o + 1))]
                                   [a + 1 := Table(o + 7, NewColumns(NAMESPACE_SCHEMA_COLS, o + 8))]
                                   [a + 2 := Table(o + 12, NewColumns(CLASS_SCHEMA_COLS, o + 13))]
            && r.storage == s.storage[a := DatabaseAttributeRows(s)][a + 1 := DatabaseNamespaceRows(o)]
                                     [a + 2 := DatabaseClassRows(s)]
  {
    PgCatalogOid(s.nextOid);
  }

  /**
   * BootstrapDatabase keeps the global relations and the fillers, keeps the invariant, and
   * registers pg_attribute, pg_namespace, pg_class and pg_attrdef of `db` at the four next
   * addresses, in that order.
   */
  lemma BootstrapDatabaseFinds(s: State, db: nat)
    requires ReadyFor(s, db)
    ensures var r := BootstrapDatabase(s, db);
            var a := s.nextAddr;
            && Kept(s, db, r) && Finds(r, db, "pg_namespace", a + 1) && Finds(r, db, "pg_class", a + 2)
            && Finds(r, db, "pg_attrdef", a + 3)
  {
    ClassStage(s, db);
    AttrDefFinds(s, db, WithClass(s, db));
  }

  /** CreatePGAttrDef after CreatePGClass keeps every lookup and adds pg_attrdef at the next address. */
  lemma AttrDefFinds(s: State, db: nat, s4: State)
    requires var a := s.nextAddr;
             && Kept(s, db, s4) && Finds(s4, db, "pg_namespace", a + 1) && Finds(s4, db, "pg_class", a + 2)
             && s4.nextAddr == a + 3
    ensures var r := CreatePGAttrDef(s4, db);
            var a := s.nextAddr;
            && Kept(s, db, r) && Finds(r, db, "pg_namespace", a + 1) && Finds(r, db, "pg_class", a + 2)
            && Finds(r, db, "pg_attrdef", a + 3)
  {
    var cols := ATTRDEF_SCHEMA_COLS;
    HandleTableKeeps(s4, db, "pg_attrdef", cols);
    HandleTableEffect(s4, db, "pg_attrdef", cols);
    HandleTableKeepsLookup(s4, db, "pg_attrdef", cols, db, "pg_database");
    HandleTableKeepsLookup(s4, db, "pg_attrdef", cols, db, "pg_tablespace");
    HandleTableKeepsLookup(s4, db, "pg_attrdef", cols, db, "pg_attribute");
    HandleTableKeepsLookup(s4, db, "pg_attrdef", cols, db, "pg_namespace");
    HandleTableKeepsLookup(s4, db, "pg_attrdef", cols, db, "pg_class");
  }

  /**
   * BootstrapDatabase hands out 24 oids and creates four tables: their schemas are
   * DatabaseTables and their rows DatabaseStorage, and no other table changes.
   */
  lemma BootstrapDatabaseShape(s: State, db: nat)
    requires ReadyFor(s, db)
    ensures var r := BootstrapDatabase(s, db);
            && r.nextOid == s.nextOid + 24 && r.nextAddr == s.nextAddr + 4
            && r.tables == DatabaseTables(s) && r.storage == DatabaseStorage(s)
  {
    ClassRows(s, db);
    var s4 := WithClass(s, db);
    HandleTableEffect(s4, db, "pg_attrdef", ATTRDEF_SCHEMA_COLS);
    AttrDefCompose(s, s4, CreatePGAttrDef(s4, db));
  }

  /** AttrDefHandle::Create after CreatePGClass, restated over the state BootstrapDatabase started from. */
  lemma AttrDefCompose(s: State, s4: State, r: State)
    requires GlobalsStored(s)
    requires var a, o := s.nextAddr, s.nextOid;
             && s4.nextOid == o + 18 && s4.nextAddr == a + 3
             && s4.tables == s.tables[a := Table(o, AttributeColumns(o + 1))]
                                     [a + 1 := Table(o + 7, NewColumns(NAMESPACE_SCHEMA_COLS, o + 8))]
                                     [a + 2 := Table(o + 12, NewColumns(CLASS_SCHEMA_COLS, o + 13))]
             && s4.storage == s.storage[a := DatabaseAttributeRows(s)][a + 1 := DatabaseNamespaceRows(o)]
                                       [a + 2 := DatabaseClassRows(s)]
    requires && r.tables == s4.tables[s4.nextAddr := Table(s4.nextOid, NewColumns(ATTRDEF_SCHEMA_COLS, s4.nextOid + 1))]
             && r.storage == s4.storage[s4.nextAddr := []]
             && r.nextOid == s4.nextOid + 1 + |ATTRDEF_SCHEMA_COLS| && r.nextAddr == s4.nextAddr + 1
    ensures && r.nextOid == s.nextOid + 24 && r.nextAddr == s.nextAddr + 4
            && r.tables == DatabaseTables(s) && r.storage == DatabaseStorage(s)
  {
  }

  // ---------------------------------------------------------------------------------------
  // Bootstrap as a whole.

  /** Bootstrap: the global relations, then the default database's own catalog relations. */
  ghost function Bootstrap(s: State): State
    requires Inv(s) && DEFAULT_DATABASE_OID !in s.nameMap
  {
    GlobalsReady(s);
    BootstrapDatabase(BootstrapGlobals(s), DEFAULT_DATABASE_OID)
  }

  /** After the global relations, BootstrapDatabase can run for the default database. */
  lemma GlobalsReady(s: State)
    requires Inv(s) && DEFAULT_DATABASE_OID !in s.nameMap
    ensures ReadyFor(BootstrapGlobals(s), DEFAULT_DATABASE_OID)
  {
    BootstrapGlobalsEffect(s);
    GlobalsReadyCompose(s, BootstrapGlobals(s));
  }

  /** The closed form of the global relations meets what BootstrapDatabase relies on. */
  lemma GlobalsReadyCompose(s: State, r: State)
    requires Supported(s.fillers.database) && Supported(s.fillers.tablespace)
    requires var a, o, f := s.nextAddr, s.nextOid, s.fillers;
             var t, g := TablespaceOid(o, f), GlobalOid(o, f);
             && r.pgDatabase == a && r.pgTablespace == a + 1 && r.nextOid == g + 2
             && r.tables == s.tables[a := Table(o, NewColumns(DATABASE_SCHEMA_COLS + f.database, o + 1))]
                                    [a + 1 := Table(t, NewColumns(TABLESPACE_SCHEMA_COLS + f.tablespace, t + 1))]
             && r.storage == s.storage[a := [EntryRow(DEFAULT_DATABASE_OID, DEFAULT_DATABASE_NAME, Fill(f.database))]]
                                      [a + 1 := [EntryRow(g, "pg_global", Fill(f.tablespace)),
                                                 EntryRow(g + 1, "pg_default", Fill(f.tablespace))]]
    ensures GlobalsStored(r) && DEFAULT_DATABASE_OID < r.nextOid
    ensures r.tables[r.pgDatabase].oid != r.tables[r.pgTablespace].oid
  {
    GlobalTablespaceOids(GlobalOid(s.nextOid, s.fillers), Fill(s.fillers.tablespace));
  }

  /**
   * A catalog bootstrapped from `s`: pg_database at the first free address holds only the
   * default database "terrier" under oid 0; pg_tablespace after it holds pg_global and
   * pg_default under consecutive fresh oids; the default database finds both and its four own
   * relations at the next four addresses; its pg_namespace holds pg_catalog and public, and its
   * pg_class lists the five catalog relations in namespace pg_catalog; the invariant holds.
   */
  ghost predicate Bootstrapped(s: State, r: State)
    requires Supported(s.fillers.database) && Supported(s.fillers.tablespace)
  {
    var a, o, f := s.nextAddr, s.nextOid, s.fillers;
    var g, db := GlobalOid(o, f), DEFAULT_DATABASE_OID;
    && Valid(r) && r.fillers == f && r.pgDatabase == a && r.pgTablespace == a + 1
    && r.nextOid == g + 26 && r.nextAddr == a + 6
    && Finds(r, db, "pg_database", a) && Finds(r, db, "pg_tablespace", a + 1)
    && Finds(r, db, "pg_attribute", a + 2) && Finds(r, db, "pg_namespace", a + 3)
    && Finds(r, db, "pg_class", a + 4) && Finds(r, db, "pg_attrdef", a + 5)
    && a in r.storage && a + 1 in r.storage
    && r.storage[a] == [EntryRow(db, DEFAULT_DATABASE_NAME, Fill(f.database))]
    && r.storage[a + 1] == [EntryRow(g, "pg_global", Fill(f.tablespace)), EntryRow(g + 1, "pg_default", Fill(f.tablespace))]
    && DefaultDatabaseRows(r, a, o, TablespaceOid(o, f), g)
  }

  /**
   * The default database's pg_namespace at a+3 holds pg_catalog and public, and its pg_class
   * at a+4 lists the five catalog relations in pg_catalog; `o`, `t` and `g` are the oids of
   * pg_database, pg_tablespace and pg_global.
   */
  ghost predicate DefaultDatabaseRows(r: State, a: nat, o: nat, t: nat, g: nat)
  {
    && a + 3 in r.storage && a + 4 in r.storage
    && r.storage[a + 3] == [EntryRow(g + 12, "pg_catalog", []), EntryRow(g + 13, "public", [])]
    && r.storage[a + 4] == [ClassRow(a, o, "pg_database", g + 12, g),
                            ClassRow(a + 1, t, "pg_tablespace", g + 12, g),
                            ClassRow(a + 3, g + 9, "pg_namespace", g + 12, g + 1),
                            ClassRow(a + 4, g + 14, "pg_class", g + 12, g + 1),
                            ClassRow(a + 2, g + 2, "pg_attribute", g + 12, g + 1)]
  }

  /** Bootstrap leaves the catalog Bootstrapped describes. */
  lemma BootstrapEffect(s: State)
    requires Inv(s) && DEFAULT_DATABASE_OID !in s.nameMap
    ensures Bootstrapped(s, Bootstrap(s))
  {
    GlobalsReady(s);
    BootstrapGlobalsEffect(s);
    var s1 := BootstrapGlobals(s);
    BootstrapDatabaseFinds(s1, DEFAULT_DATABASE_OID);
    BootstrapDatabaseShape(s1, DEFAULT_DATABASE_OID);
    BootstrapCompose(s, s1, Bootstrap(s));
  }

  /** BootstrapDatabase's closed form after the global relations', restated over the state before both. */
  lemma BootstrapCompose(s: State, s1: State, r: State)
    requires Supported(s.fillers.database) && Supported(s.fillers.tablespace)
    requires GlobalsStored(s1)
    requires var a, o, f := s.nextAddr, s.nextOid, s.fillers;
             var g := GlobalOid(o, f);
             && s1.fillers == f && s1.pgDatabase == a && s1.pgTablespace == a + 1
             && s1.nextOid == g + 2 && s1.nextAddr == a + 2
             && a in s1.tables && a + 1 in s1.tables
             && s1.tables[a].oid == o && s1.tables[a + 1].oid == TablespaceOid(o, f)
             && s1.storage == s.storage[a := [EntryRow(DEFAULT_DATABASE_OID, DEFAULT_DATABASE_NAME, Fill(f.database))]]
                                       [a + 1 := [EntryRow(g, "pg_global", Fill(f.tablespace)),
                                                  EntryRow(g + 1, "pg_default", Fill(f.tablespace))]]
    requires Kept(s1, DEFAULT_DATABASE_OID, r)
    requires var a, db := s1.nextAddr, DEFAULT_DATABASE_OID;
             Finds(r, db, "pg_namespace", a + 1) && Finds(r, db, "pg_class", a + 2) && Finds(r, db, "pg_attrdef", a + 3)
    requires r.nextOid == s1.nextOid + 24 && r.nextAddr == s1.nextAddr + 4 && r.storage == DatabaseStorage(s1)
    ensures Bootstrapped(s, r)
  {
    DatabaseStorageKeeps(s1, s.nextAddr);
    DatabaseStorageKeeps(s1, s.nextAddr + 1);
    DatabaseRowsCompose(s1, s.nextAddr, s.nextOid, TablespaceOid(s.nextOid, s.fillers),
                        GlobalOid(s.nextOid, s.fillers), Fill(s.fillers.tablespace), r);
  }

  /**
   * The pg_namespace and pg_class rows BootstrapDatabase writes for the default database,
   * restated over the address `a` and the oids `o`, `t` and `g` Bootstrap starts from.
   */
  lemma DatabaseRowsCompose(s1: State, a: nat, o: nat, t: nat, g: nat, fillers: seq<Value>, r: State)
    requires GlobalsStored(s1) && s1.pgDatabase == a && s1.pgTablespace == a + 1
    requires s1.nextOid == g + 2 && s1.nextAddr == a + 2
    requires s1.tables[a].oid == o && s1.tables[a + 1].oid == t
    requires s1.storage[a + 1] == [EntryRow(g, "pg_global", fillers), EntryRow(g + 1, "pg_default", fillers)]
    requires r.storage == DatabaseStorage(s1)
    ensures DefaultDatabaseRows(r, a, o, t, g)
  {
    GlobalTablespaceOids(g, fillers);
  }

  /** pg_tablespace's seed rows resolve pg_global and pg_default to their own oids. */
  lemma GlobalTablespaceOids(g: nat, fillers: seq<Value>)
    ensures var rows := [EntryRow(g, "pg_global", fillers), EntryRow(g + 1, "pg_default", fillers)];
            LookupOid(rows, "pg_global") == Some(g) && LookupOid(rows, "pg_default") == Some(g + 1)
  {
    var rows := [EntryRow(g, "pg_global", fillers), EntryRow(g + 1, "pg_default", fillers)];
    assert FindNamed(rows, "pg_global") == Some(0);
    assert FindNamed(rows, "pg_default") == Some(1);
  }

  /** BootstrapDatabase leaves the rows of every table below the first free address as they were. */
  lemma DatabaseStorageKeeps(s: State, k: nat)
    requires GlobalsStored(s) && k < s.nextAddr && k in s.storage
    ensures k in DatabaseStorage(s) && DatabaseStorage(s)[k] == s.storage[k]
  {
  }

  // ---------------------------------------------------------------------------------------
  // What BootstrapDatabase leaves behind, in closed form. `a` is the first free address and
  // `o` the counter's value when it starts.

  /** The tables BootstrapDatabase adds: pg_attribute, pg_namespace, pg_class and pg_attrdef, in that order. */
  ghost function DatabaseTables(s: State): map<nat, Table>
  {
    var a, o := s.nextAddr, s.nextOid;
    s.tables[a := Table(o, AttributeColumns(o + 1))]
            [a + 1 := Table(o + 7, NewColumns(NAMESPACE_SCHEMA_COLS, o + 8))]
            [a + 2 := Table(o + 12, NewColumns(CLASS_SCHEMA_COLS, o + 13))]
            [a + 3 := Table(o + 18, NewColumns(ATTRDEF_SCHEMA_COLS, o + 19))]
  }

  /** pg_attribute's rows: its own columns, then pg_database's, pg_tablespace's and pg_namespace's. */
  ghost function DatabaseAttributeRows(s: State): seq<Row>
    requires s.pgDatabase in s.tables && s.pgTablespace in s.tables
  {
    var o := s.nextOid;
    var dbT, tsT := s.tables[s.pgDatabase], s.tables[s.pgTablespace];
    AttributeRows(o, AttributeColumns(o + 1)) + AttributeRows(dbT.oid, dbT.columns) +
    AttributeRows(tsT.oid, tsT.columns) + AttributeRows(o + 7, NewColumns(NAMESPACE_SCHEMA_COLS, o + 8))
  }

  /** pg_namespace's rows: pg_catalog and public under the oids handed out right after its columns. */
  function DatabaseNamespaceRows(o: nat): seq<Row>
  {
    [EntryRow(o + 10, "pg_catalog", []), EntryRow(o + 11, "public", [])]
  }

  /** pg_class's rows: the five catalog relations, all in namespace pg_catalog. */
  ghost function DatabaseClassRows(s: State): seq<Row>
    requires GlobalsStored(s)
  {
    var a, o := s.nextAddr, s.nextOid;
    var g := LookupOid(s.storage[s.pgTablespace], "pg_global").value;
    var d := LookupOid(s.storage[s.pgTablespace], "pg_default").value;
    [ClassRow(s.pgDatabase, s.tables[s.pgDatabase].oid, "pg_database", o + 10, g),
     ClassRow(s.pgTablespace, s.tables[s.pgTablespace].oid, "pg_tablespace", o + 10, g),
     ClassRow(a + 1, o + 7, "pg_namespace", o + 10, d),
     ClassRow(a + 2, o + 12, "pg_class", o + 10, d),
     ClassRow(a, o, "pg_attribute", o + 10, d)]
  }

  /** What BootstrapDatabase leaves in the storage: the rows of its four tables. */
  ghost function DatabaseStorage(s: State): map<nat, seq<Row>>
    requires GlobalsStored(s)
  {
    var a := s.nextAddr;
    s.storage[a := DatabaseAttributeRows(s)][a + 1 := DatabaseNamespaceRows(s.nextOid)]
             [a + 2 := DatabaseClassRows(s)][a + 3 := []]
  }

  // ---------------------------------------------------------------------------------------
  // What the closed form promises.

  /** Every column of table `t` has its row in `attrRows`. */
  ghost predicate AllDescribed(attrRows: seq<Row>, t: Table)
  {
    forall k :: 0 <= k < |t.columns| ==> Describes(attrRows, t, k)
  }

  /**
   * pg_attribute describes every column of pg_attribute itself, of pg_database, of
   * pg_tablespace and of pg_namespace.
   */
  lemma DatabaseAttributesDescribe(s: State)
    requires GlobalsStored(s) && s.pgDatabase < s.nextAddr && s.pgTablespace < s.nextAddr
    ensures var a, tables, attr := s.nextAddr, DatabaseTables(s), DatabaseStorage(s)[s.nextAddr];
            && AllDescribed(attr, tables[a]) && AllDescribed(attr, tables[s.pgDatabase])
            && AllDescribed(attr, tables[s.pgTablespace]) && AllDescribed(attr, tables[a + 1])
  {
    var o, tables := s.nextOid, DatabaseTables(s);
    var tA, tD, tT, tN := tables[s.nextAddr], tables[s.pgDatabase], tables[s.pgTablespace], tables[s.nextAddr + 1];
    var rA, rD, rT, rN := AttributeRows(tA.oid, tA.columns), AttributeRows(tD.oid, tD.columns),
                          AttributeRows(tT.oid, tT.columns), AttributeRows(tN.oid, tN.columns);
    assert DatabaseStorage(s)[s.nextAddr] == rA + rD + rT + rN;
    AttributeRowsDescribe([], tA, rD + rT + rN);
    assert [] + rA + (rD + rT + rN) == rA + rD + rT + rN;
    AttributeRowsDescribe(rA, tD, rT + rN);
    assert rA + rD + (rT + rN) == rA + rD + rT + rN;
    AttributeRowsDescribe(rA + rD, tT, rN);
    AttributeRowsDescribe(rA + rD + rT, tN, []);
    assert rA + rD + rT + rN + [] == rA + rD + rT + rN;
  }

  /** The relations CreatePGClass lists, in the order of its rows. */
  const CLASS_NAMES := ["pg_database", "pg_tablespace", "pg_namespace", "pg_class", "pg_attribute"]

  /**
   * Every pg_class row names one catalog relation of `db`: the address and the oid of the table
   * GetDatabaseCatalog finds under that name, namespace `nsOid`, and pg_global for the two
   * global relations and pg_default for the others.
   */
  ghost predicate ClassRowsMatch(r: State, db: nat, rows: seq<Row>, nsOid: int, g: int, d: int)
  {
    && |rows| == |CLASS_NAMES|
    && forall i :: 0 <= i < |rows| ==>
         && Registered(r, db, CLASS_NAMES[i]) && Found(r, db, CLASS_NAMES[i]) in r.tables
         && rows[i] == ClassRow(Found(r, db, CLASS_NAMES[i]), r.tables[Found(r, db, CLASS_NAMES[i])].oid,
                                CLASS_NAMES[i], nsOid, if i < 2 then g else d)
  }

  /**
   * pg_class, as BootstrapDatabase leaves it, lists every catalog relation where the
   * directories find it, given the lookups BootstrapDatabaseFinds establishes.
   */
  lemma DatabaseClassRowsMatch(s: State, db: nat, r: State)
    requires GlobalsStored(s) && s.pgDatabase < s.nextAddr && s.pgTablespace < s.nextAddr
    requires r.tables == DatabaseTables(s) && r.storage == DatabaseStorage(s)
    requires var a := s.nextAddr;
             && Finds(r, db, "pg_database", s.pgDatabase) && Finds(r, db, "pg_tablespace", s.pgTablespace)
             && Finds(r, db, "pg_attribute", a) && Finds(r, db, "pg_namespace", a + 1) && Finds(r, db, "pg_class", a + 2)
    ensures ClassRowsMatch(r, db, r.storage[s.nextAddr + 2], s.nextOid + 10,
                           LookupOid(s.storage[s.pgTablespace], "pg_global").value,
                           LookupOid(s.storage[s.pgTablespace], "pg_default").value)
  {
    assert r.storage[s.nextAddr + 2] == DatabaseClassRows(s);
  }

  /**
   * DestroyDB frees none of the relations BootstrapDatabase created: every pg_class row lies in
   * the namespace pg_namespace gives for pg_catalog.
   */
  lemma DatabaseNothingReclaimed(s: State, addr: nat)
    requires GlobalsStored(s)
    ensures var a, rows := s.nextAddr, DatabaseStorage(s);
            && LookupOid(rows[a + 1], "pg_catalog") == Some(s.nextOid + 10)
            && !ReclaimedBy(rows[a + 2], s.nextOid + 10, addr)
  {
    PgCatalogOid(s.nextOid);
    CatalogRowsKept(DatabaseClassRows(s), s.nextOid + 10, addr);
  }
}

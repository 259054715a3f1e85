/**
 * Creating and deleting databases: the database's pg_database entry and its entries in the
 * table directory (map_) and the name directory (name_map_).
 */
module DatabaseOps {
  import opened Wrappers
  import opened Values
  import opened Oids
  import opened Fillers
  import opened CatalogRows
  import opened Directory
  import opened CatalogState

  /** pg_database is stored and its rows can be filled. */
  ghost predicate DatabasesStored(s: State)
  {
    Supported(s.fillers.database) && s.pgDatabase in s.storage
  }

  /**
   * AddEntryToPGDatabase(oid, name): the row (oid, name, fillers...) appended to pg_database,
   * and `map_[oid]` set to an empty table directory; the name directory is left alone.
   */
  ghost function AddEntryToPGDatabase(s: State, oid: nat, name: string): State
    requires DatabasesStored(s)
  {
    var s1 := WithRows(s, s.pgDatabase, [EntryRow(oid, name, Fill(s.fillers.database))]);
    s1.(tableMap := s1.tableMap[oid := map[]])
  }

  /** CreateDatabase(name): a fresh oid from the counter, then the database's entry under it. */
  ghost function CreateDatabase(s: State, name: string): State
    requires DatabasesStored(s)
  {
    AddEntryToPGDatabase(Issue(s), s.nextOid, name)
  }

  /** DeleteDatabase finds an entry for `name` in pg_database, whose first column is its oid. */
  ghost predicate CanDelete(s: State, name: string)
  {
    && s.pgDatabase in s.storage
    && LookupOid(s.storage[s.pgDatabase], name).Some?
  }

  /**
   * DeleteDatabase(name): GetDatabaseEntry finds the first pg_database row named `name`,
   * DeleteEntry removes it, and the database's oid is erased from both directories.
   */
  ghost function DeleteDatabase(s: State, name: string): State
    requires CanDelete(s, name)
  {
    var rows := s.storage[s.pgDatabase];
    var i := FindNamed(rows, name).value;
    var oid := LookupOid(rows, name).value;
    s.(storage := s.storage[s.pgDatabase := RemoveAt(rows, i)],
       tableMap := Erase(s.tableMap, oid), nameMap := Erase(s.nameMap, oid))
  }

  // ---------------------------------------------------------------------------------------
  // CreateDatabase.

  /**
   * CreateDatabase hands out an oid no database and no earlier issuance has, appends exactly
   * one pg_database row for it, gives it an empty table directory and no name directory, and
   * keeps the invariant; no table changes.
   */
  lemma CreateDatabaseEffect(s: State, name: string)
    requires Valid(s)
    ensures var r, o, pd := CreateDatabase(s, name), s.nextOid, s.pgDatabase;
            && Valid(r)
            && o !in s.tableMap && o !in s.nameMap && o !in s.issued
            && r.nextOid == o + 1 && r.issued == s.issued + [o]
            && r.storage == s.storage[pd := s.storage[pd] + [EntryRow(o, name, Fill(s.fillers.database))]]
            && r.tableMap == s.tableMap[o := map[]] && r.nameMap == s.nameMap
            && r.tables == s.tables && r.pgDatabase == pd && r.pgTablespace == s.pgTablespace
  {
    IssueKeeps(s);
    var s1 := Issue(s);
    var s2 := WithRows(s1, s.pgDatabase, [EntryRow(s.nextOid, name, Fill(s.fillers.database))]);
    assert Inv(s2);
    EmptyDirectoryKeeps(s2, s.nextOid);
  }

  /**
   * After CreateDatabase the new database has no tables: every lookup in it fails, by oid
   * and by name, and every lookup in any other database finds what it found before.
   */
  lemma CreateDatabaseLookups(s: State, name: string, db: nat, t: nat, tableName: string)
    requires Valid(s)
    ensures var r, o := CreateDatabase(s, name), s.nextOid;
            && GetDatabaseCatalog(r.tableMap, o, t).None?
            && GetDatabaseCatalogByName(r.tableMap, r.nameMap, o, tableName).None?
            && (db != o ==> GetDatabaseCatalog(r.tableMap, db, t) == GetDatabaseCatalog(s.tableMap, db, t))
            && (db != o ==> GetDatabaseCatalogByName(r.tableMap, r.nameMap, db, tableName) ==
                            GetDatabaseCatalogByName(s.tableMap, s.nameMap, db, tableName))
  {
    CreateDatabaseEffect(s, name);
  }

  /**
   * GetDatabaseEntry(name) after CreateDatabase(name) reports the new oid when no database had
   * that name, and the old one otherwise; every other name reports what it did before.
   */
  lemma CreateDatabaseEntry(s: State, name: string, other: string)
    requires Valid(s) && name != other
    ensures var r, pd := CreateDatabase(s, name), s.pgDatabase;
            && (FindNamed(s.storage[pd], name).None? ==> LookupOid(r.storage[pd], name) == Some(s.nextOid))
            && (FindNamed(s.storage[pd], name).Some? ==> LookupOid(r.storage[pd], name) == LookupOid(s.storage[pd], name))
            && LookupOid(r.storage[pd], other) == LookupOid(s.storage[pd], other)
  {
    CreateDatabaseEffect(s, name);
    var rows, row := s.storage[s.pgDatabase], EntryRow(s.nextOid, name, Fill(s.fillers.database));
    if FindNamed(rows, name).None? {
      LookupNewEntry(rows, s.nextOid, name, Fill(s.fillers.database));
    } else {
      LookupFirstEntryWins(rows, [row], name);
    }
    LookupOtherEntry(rows, row, other);
  }

  // ---------------------------------------------------------------------------------------
  // DeleteDatabase.

  /**
   * DeleteDatabase removes one pg_database row and erases the database's oid from both
   * directories; every other database keeps its directory entries, and the invariant holds.
   */
  lemma DeleteDatabaseEffect(s: State, name: string)
    requires Valid(s) && CanDelete(s, name)
    ensures var r, pd := DeleteDatabase(s, name), s.pgDatabase;
            var oid := LookupOid(s.storage[pd], name).value;
            && Valid(r)
            && |r.storage[pd]| == |s.storage[pd]| - 1
            && oid !in r.tableMap && oid !in r.nameMap
            && (forall db :: db != oid ==> (db in r.tableMap <==> db in s.tableMap))
            && (forall db :: db != oid && db in r.tableMap ==> r.tableMap[db] == s.tableMap[db])
            && (forall db :: db != oid ==> (db in r.nameMap <==> db in s.nameMap))
            && (forall db :: db != oid && db in r.nameMap ==> r.nameMap[db] == s.nameMap[db])
            && r.tables == s.tables && r.nextOid == s.nextOid
  {
  }

  /** After DeleteDatabase every lookup in the deleted database fails and every other lookup is unchanged. */
  lemma DeleteDatabaseLookups(s: State, name: string, db: nat, t: nat, tableName: string)
    requires Valid(s) && CanDelete(s, name)
    ensures var r, oid := DeleteDatabase(s, name), LookupOid(s.storage[s.pgDatabase], name).value;
            && (db == oid ==> GetDatabaseCatalog(r.tableMap, db, t).None?)
            && (db == oid ==> GetDatabaseCatalogByName(r.tableMap, r.nameMap, db, tableName).None?)
            && (db != oid ==> GetDatabaseCatalog(r.tableMap, db, t) == GetDatabaseCatalog(s.tableMap, db, t))
            && (db != oid ==> GetDatabaseCatalogByName(r.tableMap, r.nameMap, db, tableName) ==
                              GetDatabaseCatalogByName(s.tableMap, s.nameMap, db, tableName))
  {
    DeleteDatabaseEffect(s, name);
  }

  /**
   * When only one pg_database row carries `name`, GetDatabaseEntry(name) finds nothing after
   * DeleteDatabase(name); every other name still reports the oid it did.
   */
  lemma DeleteDatabaseEntry(s: State, name: string, other: string)
    requires CanDelete(s, name) && name != other
    requires var rows := s.storage[s.pgDatabase];
             forall j :: 0 <= j < |rows| && j != FindNamed(rows, name).value ==> !NamedRow(rows[j], name)
    ensures var r, pd := DeleteDatabase(s, name), s.pgDatabase;
            && FindNamed(r.storage[pd], name).None?
            && LookupOid(r.storage[pd], other) == LookupOid(s.storage[pd], other)
  {
    var rows := s.storage[s.pgDatabase];
    var i := FindNamed(rows, name).value;
    RemoveOnlyEntry(rows, i, name);
    assert !NamedRow(rows[i], other);
    RemoveOtherEntry(rows, i, other);
  }

  /**
   * Creating a database under a name no database has and deleting it again restores
   * pg_database and both directories; only the counter has moved on.
   */
  lemma CreateDeleteRoundTrip(s: State, name: string)
    requires Valid(s) && FindNamed(s.storage[s.pgDatabase], name).None?
    ensures CanDelete(CreateDatabase(s, name), name)
    ensures var r := DeleteDatabase(CreateDatabase(s, name), name);
            && r.storage == s.storage && r.tableMap == s.tableMap && r.nameMap == s.nameMap
            && r.tables == s.tables && r.nextOid == s.nextOid + 1
  {
    CreateDatabaseEffect(s, name);
    UndoCreate(s, CreateDatabase(s, name), name, Fill(s.fillers.database));
  }

  /** Deleting the entry a creation appended, when no earlier row had its name, undoes the creation. */
  lemma UndoCreate(s: State, c: State, name: string, fillers: seq<Value>)
    requires s.pgDatabase in s.storage && FindNamed(s.storage[s.pgDatabase], name).None?
    requires s.nextOid !in s.tableMap && s.nextOid !in s.nameMap
    requires var pd, o := s.pgDatabase, s.nextOid;
             && c.pgDatabase == pd && c.storage == s.storage[pd := s.storage[pd] + [EntryRow(o, name, fillers)]]
             && c.tableMap == s.tableMap[o := map[]] && c.nameMap == s.nameMap
             && c.tables == s.tables && c.nextOid == o + 1
    ensures CanDelete(c, name)
    ensures var r := DeleteDatabase(c, name);
            && r.storage == s.storage && r.tableMap == s.tableMap && r.nameMap == s.nameMap
            && r.tables == s.tables && r.nextOid == s.nextOid + 1
  {
    var rows, o := s.storage[s.pgDatabase], s.nextOid;
    var row := EntryRow(o, name, fillers);
    LookupNewEntry(rows, o, name, fillers);
    FindNamedFirst(rows + [row], name, |rows|);
    assert RemoveAt(rows + [row], |rows|) == rows;
    assert Erase(c.tableMap, o) == s.tableMap;
    assert Erase(c.nameMap, o) == s.nameMap;
  }
}

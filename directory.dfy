/**
 * The catalog's two directories: the table directory (database oid -> table oid -> table
 * address, map_) and the name directory (database oid -> table name -> table oid,
 * name_map_), and the lookups GetDatabaseCatalog performs over them.
 */
module Directory {
  import opened Wrappers

  type TableDirectory = map<nat, map<nat, nat>>
  type NameDirectory = map<nat, map<string, nat>>

  /** The inner map of database `db`, as `operator[]` yields it: empty when the database has none. */
  function Inner<K, V>(m: map<nat, map<K, V>>, db: nat): map<K, V>
  {
    if db in m then m[db] else map[]
  }

  /**
   * GetDatabaseCatalog(db_oid, table_oid): `map_.at(db).at(table)`. It fails (the source
   * throws out_of_range) exactly when the database or the table oid is not in the directory.
   */
  function GetDatabaseCatalog(tableMap: TableDirectory, db: nat, t: nat): (r: Option<nat>)
    ensures r.Some? <==> db in tableMap && t in tableMap[db]
    ensures r.Some? ==> r.value == tableMap[db][t]
  {
    if db in tableMap && t in tableMap[db] then Some(tableMap[db][t]) else None
  }

  /**
   * GetDatabaseCatalog(db_oid, table_name): the table registered under the oid the name
   * directory gives for `name`; it fails when the name is unknown or its oid is unregistered.
   */
  function GetDatabaseCatalogByName(tableMap: TableDirectory, nameMap: NameDirectory, db: nat, name: string): (r: Option<nat>)
    ensures r.Some? <==> db in nameMap && name in nameMap[db] && GetDatabaseCatalog(tableMap, db, nameMap[db][name]).Some?
    ensures r.Some? ==> r.value == tableMap[db][nameMap[db][name]]
  {
    if db in nameMap && name in nameMap[db] then GetDatabaseCatalog(tableMap, db, nameMap[db][name]) else None
  }

  /** A database with a name directory has a table directory, and every name leads to a registered oid. */
  ghost predicate DirectoriesAgree(tableMap: TableDirectory, nameMap: NameDirectory)
  {
    && (forall db :: db in nameMap ==> db in tableMap)
    && (forall db, n :: db in nameMap && n in nameMap[db] ==> nameMap[db][n] in tableMap[db])
  }

  /** When the directories agree, a lookup by name fails exactly when the name is unknown. */
  lemma ByNameFindsEveryName(tableMap: TableDirectory, nameMap: NameDirectory, db: nat, name: string)
    requires DirectoriesAgree(tableMap, nameMap)
    ensures GetDatabaseCatalogByName(tableMap, nameMap, db, name).Some? <==> db in nameMap && name in nameMap[db]
  {
  }

  /** `map_.erase(oid)` / `name_map_.erase(oid)`: the directory without database `k`. */
  function Erase<V>(m: map<nat, V>, k: int): (r: map<nat, V>)
    ensures forall d :: d in r <==> d in m && d != k
    ensures forall d :: d in r ==> r[d] == m[d]
  {
    map d | d in m && d != k :: m[d]
  }
}

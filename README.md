# System catalog of the NoisePage (terrier) engine, in Dafny

This project models the in-memory system catalog of `src/catalog/catalog.cpp`:

- the single oid counter (`oid_`) that hands out identifiers to every kind of object;
- the table directory `map_` (database oid -> table oid -> table);
- the name directory `name_map_` (database oid -> table name -> table oid);
- the catalog relations the engine describes itself with: `pg_database`, `pg_tablespace`, `pg_attribute`, `pg_namespace`, `pg_class`, `pg_attrdef` and `pg_type`.

The modelled operations are:

- the constructor and `Bootstrap`;
- `BootstrapDatabase` and its steps (`CreatePGDatabase`/`PopulatePGDatabase`, `CreatePGTablespace`/`PopulatePGTablespace`, `CreatePGAttribute`, `CreatePGNameSpace`, `CreatePGClass`, and the `pg_attrdef` handle);
- `CreatePGType`;
- `CreateDatabase`/`AddEntryToPGDatabase` and `DeleteDatabase`;
- both `GetDatabaseCatalog` lookups;
- `AddUnusedSchemaColumns`, `AddColumnsToPGAttribute` and `SetUnusedColumns`;
- the row filter of `DestroyDB`.

## Layout

The `Catalog` object is a Dafny `class` (module `SystemCatalog`). Its fields are the counter, the tables, their rows, the two directories and the two global relations. Its methods update them in place. They use the same loops the source has: `AddUnusedSchemaColumns`, `AddColumnsToPGAttribute`, the six column oids of `CreatePGAttribute`, and the scan of `DestroyDB`.

Every state-changing method ensures `Snapshot() == Spec(old(Snapshot()))`. `Snapshot()` is the catalog as a value of the datatype `CatalogState.State`. `Spec` is a ghost function over such values. The specification functions and what is proved about them live in separate modules:

- `Oids`: the issued-oid history. Oids are increasing and pairwise distinct, and n calls give consecutive oids.
- `Fillers`: the placeholder values of filler ("unused") columns.
- `Directory`: the two directories and the lookups over them.
- `CatalogRows`: the shapes of the rows the catalog writes:
  - entry rows, looked up by name;
  - `pg_attribute` rows;
  - `pg_class` rows and the reclaim test of `DestroyDB`;
  - `pg_type` rows.
- `CatalogState`: the state, its invariant `Inv`, and the primitive steps. The steps are:
  - handing out an oid;
  - creating a table;
  - defining columns;
  - inserting rows;
  - registering in the directories;
  - a handle's `Create`;
  - describing a table in `pg_attribute`.
- `BootstrapSteps`: each bootstrap step as a function of the state, with its closed form and the invariant it keeps.
- `DatabaseBootstrap`: `BootstrapDatabase` and `Bootstrap` as a whole. It covers what they leave in every relation, the lookups they establish, and `pg_class` listing each catalog relation.
- `DatabaseOps`: creating and deleting databases, their effect on the directories and on lookups, and the create/delete round trip.
- `TypeCatalog`: `pg_type` and its nine built-in rows.
- `DatabaseDestroy`: the addresses `DestroyDB` frees, the single scan batch of 100 `pg_class` rows it examines, the proof that a freshly bootstrapped database frees none, and the input on which a user table is never freed.

Where the documentation of the system and the code disagree, the model follows the code:

- `CreatePGClass` writes five `pg_class` rows: `pg_database`, `pg_tablespace`, `pg_namespace`, `pg_class` and also `pg_attribute`. The documentation counts four.
- `BootstrapDatabase` does not call `CreatePGType`. `pg_type` is a separate operation here, as in the code.

## Model

| member | source | states |
|---|---|---|
| Oids.Consecutive | src/catalog/catalog.cpp:58 | n calls of GetNextOid from `first` hand out exactly first, first+1, ..., first+n-1 |
| Oids.IssuedInOrder | src/catalog/catalog.cpp:58 | in a stepwise-increasing history an oid issued earlier is strictly smaller than one issued later |
| Oids.IssuedDistinct | src/catalog/catalog.cpp:58 | no two issuances of the shared counter, of whatever object kind, ever produce the same oid |
| Oids.IssueNext | src/catalog/catalog.cpp:58 | issuing a counter value above the whole history keeps the history increasing, and the value is new |
| Oids.ConsecutiveAppend | src/catalog/catalog.cpp:58 | m oids and then n more are the m+n consecutive oids |
| Oids.IssueConsecutive | src/catalog/catalog.cpp:58 | issuing n consecutive values keeps the history increasing and below the advanced counter |
| CatalogState.InitialInv | src/catalog/catalog.cpp:19 | the catalog before Bootstrap, with the counter at START_OID (1001) and empty directories, satisfies the invariant |
| CatalogState.IssueKeeps | src/catalog/catalog.cpp:58 | GetNextOid hands out an oid above, and distinct from, every oid handed out before, and keeps the invariant |
| CatalogState.IssueManyKeeps | src/catalog/catalog.cpp:58 | any number of GetNextOid calls keep the invariant |
| CatalogState.NewColumnsAppend | src/catalog/catalog.cpp:75-80 | defining two descriptor lists in a row defines the columns of the joined list |
| CatalogState.DefineFreshStep | src/catalog/catalog.cpp:77-79 | one loop iteration of AddUnusedSchemaColumns is the next oid and then column i under it |
| CatalogState.DefineFreshTwice | src/catalog/catalog.cpp:294-299 | defining the used columns and then the filler columns equals defining the joined list under the same oids |
| CatalogState.DefineFreshKeeps | src/catalog/catalog.cpp:75-80 | AddUnusedSchemaColumns keeps the invariant |
| CatalogState.AddTableKeeps | src/catalog/catalog.cpp:103 | a new table under an issued oid keeps the invariant |
| CatalogState.RegisterKeeps | src/catalog/catalog.cpp:203-204 | registering an existing table under a database below the counter keeps the directory consistent |
| CatalogState.RegisterFinds | src/catalog/catalog.cpp:203-204 | after `map_[db][oid] = t; name_map_[db][name] = oid`, the lookup of `name` in `db` finds t |
| CatalogState.RegisterKeepsOthers | src/catalog/catalog.cpp:203-204 | registering a table under a fresh oid leaves every lookup of another name, or of another database, unchanged |
| CatalogState.FreshOidUnregistered | src/catalog/catalog.cpp:185 | the counter's current value is registered in no database |
| CatalogState.HandleTableNormal | src/catalog/catalog.cpp:222 | a handle's Create is: a fresh oid, a new table under it with its columns under the next oids, then registration |
| CatalogState.HandleTableEffect | src/catalog/catalog.cpp:222 | a handle's Create makes the table at the next address, under the counter's oid, with its columns, no rows, and the name found in `db`; nothing else in the tables changes |
| CatalogState.HandleTableKeeps | src/catalog/catalog.cpp:222 | a handle's Create keeps the invariant |
| CatalogState.HandleTableKeepsLookup | src/catalog/catalog.cpp:235 | a handle's Create leaves every other lookup by name as it was |
| CatalogState.EmptyDirectoryKeeps | src/catalog/catalog.cpp:458 | `map_[oid] = {}` for a database below the counter with no names keeps the invariant |
| CatalogState.DescribeKeeps | src/catalog/catalog.cpp:82-98 | AddColumnsToPGAttribute only changes rows, and keeps the invariant |
| CatalogState.FoundByName | src/catalog/catalog.cpp:54-56 | under the invariant, the table found by name carries the oid the name directory gives for it |
| Fillers.UnusedValues | src/catalog/catalog.cpp:461-480 | one placeholder per filler column, in order (false, 0 or VARCHAR NULL); it fails with the not-implemented error exactly when some column has another type |
| Fillers.SetUnusedColumns | src/catalog/catalog.cpp:461-480 | the loop keeps the row's prefix and appends one placeholder per column in order, or fails with NotImplemented exactly when a column's type is unsupported; on success the result is `row + Fill(cols)` |
| Fillers.Fill | src/catalog/catalog.cpp:461-480 | one placeholder per supported filler column, each the value the type switch gives |
| Fillers.SetUnusedColumnsIsFill | src/catalog/catalog.cpp:461-480 | the appended row and the functional specification agree |
| Directory.ByNameFindsEveryName | src/catalog/catalog.cpp:54-56 | when the directories agree, the lookup by name fails exactly when the name is unknown |
| CatalogRows.FindNamed | src/catalog/catalog.cpp:33 | the position of the first row with that name, with no earlier one; absent exactly when no row has the name |
| CatalogRows.FindNamedFirst | src/catalog/catalog.cpp:33 | the first row carrying a name is the one the lookup reports |
| CatalogRows.LookupSeeded | src/catalog/catalog.cpp:240-244 | in a seeded relation with distinct names, each name resolves to its own entry's oid |
| CatalogRows.LookupNewEntry | src/catalog/catalog.cpp:450-455 | appending an entry under a new name makes the name resolve to the new oid |
| CatalogRows.LookupOtherEntry | src/catalog/catalog.cpp:450-455 | appending a row under another name leaves the lookup of a name unchanged |
| CatalogRows.LookupFirstEntryWins | src/catalog/catalog.cpp:450-455 | rows appended after a name's first entry never change what it resolves to |
| CatalogRows.RemoveAt | src/catalog/catalog.cpp:36 | DeleteEntry removes exactly the row at i and keeps the others in order |
| CatalogRows.RemoveOnlyEntry | src/catalog/catalog.cpp:30-36 | deleting the only row with a name leaves the name unresolvable |
| CatalogRows.RemoveOtherEntry | src/catalog/catalog.cpp:30-36 | deleting a row under another name leaves every lookup of a name resolving to the same oid |
| CatalogRows.AttributeRows | src/catalog/catalog.cpp:87-97 | one pg_attribute row per column |
| CatalogRows.AttributeRowAt | src/catalog/catalog.cpp:87-97 | row k is (column k's oid, table oid, column k's name, 0, 0, 0): schema order |
| CatalogRows.AttributeRowsSnoc | src/catalog/catalog.cpp:87-97 | one loop iteration appends exactly the next column's row |
| CatalogRows.AttributeRowsDescribe | src/catalog/catalog.cpp:82-98 | a pg_attribute holding a table's rows describes every column of that table |
| CatalogRows.CatalogRowsKept | src/catalog/catalog.cpp:433-443 | a pg_class whose rows all lie in pg_catalog has nothing reclaimed |
| CatalogRows.OnlyUserTableReclaimed | src/catalog/catalog.cpp:433-443 | next to pg_catalog rows, a row in another namespace is reclaimed, and it alone |
| CatalogRows.BuiltinTypeRows | src/catalog/catalog.cpp:313-401 | nine rows in fixed order (boolean … varchar) under consecutive oids in one namespace; the length is GetTypeSize's, and only varchar has -1 |
| DatabaseOps.CreateDatabaseEffect | src/catalog/catalog.cpp:25-28 | one fresh oid, used by no database and no earlier issuance; exactly one pg_database row (oid, name, fillers) appended; `map_[oid]` empty; `name_map_` untouched; no table changes; the invariant holds |
| DatabaseOps.CreateDatabaseLookups | src/catalog/catalog.cpp:25-28 | the new database finds no table by oid or name; lookups in every other database are unchanged |
| DatabaseOps.CreateDatabaseEntry | src/catalog/catalog.cpp:450-455 | the entry lookup of the new name gives the new oid when it was unused and the old one otherwise; other names are unchanged |
| DatabaseOps.DeleteDatabaseEffect | src/catalog/catalog.cpp:30-44 | one pg_database row removed; the database's oid gone from both directories; every other database keeps its entries; tables and counter unchanged; the invariant holds |
| DatabaseOps.DeleteDatabaseLookups | src/catalog/catalog.cpp:42-43 | every lookup in the deleted database fails, and every other lookup is unchanged |
| DatabaseOps.DeleteDatabaseEntry | src/catalog/catalog.cpp:33-36 | the deleted name no longer resolves when it had one entry; other names resolve as before |
| DatabaseOps.CreateDeleteRoundTrip | src/catalog/catalog.cpp:25-44 | creating a database under an unused name and deleting it restores pg_database and both directories; only the counter has moved |
| DatabaseOps.UndoCreate | src/catalog/catalog.cpp:30-44 | deleting the entry that a creation appended undoes that creation |
| BootstrapSteps.CreatePGDatabaseEffect | src/catalog/catalog.cpp:100-121 | pg_database at the next address under the given oid; used then filler columns under consecutive oids; no rows; `map_[0]` empty; the invariant holds |
| BootstrapSteps.WithPGDatabaseEffect | src/catalog/catalog.cpp:123-132 | after the oid, the table and its population, pg_database holds exactly the row ("terrier" under oid 0, fillers) |
| BootstrapSteps.CreatePGTablespaceEffect | src/catalog/catalog.cpp:134-145 | pg_tablespace at the next address under the given oid, with oid, spcname and filler columns; the invariant holds |
| BootstrapSteps.PopulatePGTablespaceKeeps | src/catalog/catalog.cpp:147-166 | populating pg_tablespace keeps the invariant |
| BootstrapSteps.WithPGTablespaceEffect | src/catalog/catalog.cpp:147-163 | pg_tablespace holds exactly pg_global then pg_default, under the two consecutive oids after its columns |
| BootstrapSteps.BootstrapGlobalsEffect | src/catalog/catalog.cpp:60-68 | both global relations with their columns and seed rows at two consecutive addresses; the counter and the directory are as stated; the invariant holds |
| BootstrapSteps.RegisterGlobalsEffect | src/catalog/catalog.cpp:170-173 | pg_database and pg_tablespace are found under `db` at their addresses; only the directories change; the invariant holds |
| BootstrapSteps.AttributeTableEffect | src/catalog/catalog.cpp:185-204 | pg_attribute under a fresh oid with six columns under the next six oids, registered under `db` |
| BootstrapSteps.CreatePGAttributeEffect | src/catalog/catalog.cpp:183-215 | pg_attribute with its six columns, and holding the attribute rows of itself, pg_database and pg_tablespace in that order; 7 oids used |
| BootstrapSteps.CreatePGAttributeFinds | src/catalog/catalog.cpp:203-204 | pg_attribute is found under `db` and every other lookup is unchanged |
| BootstrapSteps.CreatePGAttributeKeeps | src/catalog/catalog.cpp:183-215 | CreatePGAttribute keeps the invariant |
| BootstrapSteps.CreatePGNameSpaceEffect | src/catalog/catalog.cpp:217-229 | pg_namespace, then exactly pg_catalog and public under the next two oids; the description of its columns in pg_attribute is the one credited to `NamespaceHandle::Create` (catalog.cpp:222) under "## Left out" |
| BootstrapSteps.CreatePGNameSpaceKeeps | src/catalog/catalog.cpp:217-229 | CreatePGNameSpace keeps the invariant |
| BootstrapSteps.CreatePGClassEffect | src/catalog/catalog.cpp:231-286 | pg_class holds exactly five rows (pg_database, pg_tablespace, pg_namespace, pg_class, pg_attribute), each with the found address and oid, the pg_catalog namespace, and pg_global for the first two, pg_default for the rest |
| BootstrapSteps.CreatePGClassKeeps | src/catalog/catalog.cpp:231-286 | CreatePGClass keeps the invariant |
| DatabaseBootstrap.GlobalsReady | src/catalog/catalog.cpp:60-70 | after the global relations, BootstrapDatabase of the default database has what it relies on |
| DatabaseBootstrap.BootstrapDatabaseFinds | src/catalog/catalog.cpp:168-181 | afterwards `db` finds pg_database, pg_tablespace, pg_attribute, pg_namespace, pg_class and pg_attrdef where they were made; the invariant holds |
| DatabaseBootstrap.BootstrapDatabaseShape | src/catalog/catalog.cpp:168-181 | 24 oids and four tables; the schemas and rows of every relation are the closed forms; nothing else changes |
| DatabaseBootstrap.DatabaseAttributesDescribe | src/catalog/catalog.cpp:206-214 | pg_attribute describes every column of pg_attribute, pg_database, pg_tablespace and pg_namespace |
| DatabaseBootstrap.PgCatalogOid | src/catalog/catalog.cpp:227 | pg_catalog resolves to the first pg_namespace entry's oid |
| DatabaseBootstrap.DatabaseClassRowsMatch | src/catalog/catalog.cpp:246-285 | every pg_class row names a relation by the address and oid the directories give for it, with the tablespace by position |
| DatabaseBootstrap.DatabaseNothingReclaimed | src/catalog/catalog.cpp:432-443 | pg_catalog resolves in pg_namespace, and no pg_class row of a bootstrapped database is reclaimed |
| DatabaseBootstrap.BootstrapEffect | src/catalog/catalog.cpp:60-73 | Bootstrap leaves: pg_database holding only "terrier"; pg_tablespace holding pg_global and pg_default under consecutive oids; the default database's pg_namespace holding pg_catalog and public, and its pg_class listing the five catalog relations in pg_catalog with their addresses, oids and tablespaces; the six relations found where they were made; the counter and address as stated; the invariant |
| DatabaseBootstrap.DatabaseRowsCompose | src/catalog/catalog.cpp:217-285 | the default database's pg_namespace holds exactly pg_catalog then public, and its pg_class exactly the five catalog relations, with the addresses, oids and tablespaces Bootstrap gave them |
| TypeCatalog.InsertTypesEffect | src/catalog/catalog.cpp:313-401 | inserting a list of types hands out one oid per type and appends one row per type, in order, under those oids |
| TypeCatalog.BuiltinTypeRowsInserted | src/catalog/catalog.cpp:313-401 | the rows of the built-in list are the nine fixed rows |
| TypeCatalog.TypesInsertedStep | src/catalog/catalog.cpp:314-321 | inserting built-in type k under the next oid after the first k gives the first k+1 |
| TypeCatalog.CreatePGTypeEffect | src/catalog/catalog.cpp:288-402 | pg_type at the next address with its used and filler columns, found under `db`, holding exactly the nine built-in rows in pg_catalog; nothing else in the tables changes |
| TypeCatalog.CreatePGTypeKeeps | src/catalog/catalog.cpp:288-304 | CreatePGType keeps the invariant and every lookup of another name |
| TypeCatalog.AppendKeeps | src/catalog/catalog.cpp:314-321 | handing out oids and appending rows keeps the invariant and the directories |
| DatabaseDestroy.Reclaimed | src/catalog/catalog.cpp:433-443 | an address is freed exactly when some pg_class row outside pg_catalog holds it; at most one per row |
| DatabaseDestroy.ClassRowsFreeNothing | src/catalog/catalog.cpp:433-443 | the pg_class rows BootstrapDatabase writes free nothing |
| DatabaseDestroy.BootstrapDatabaseFreesNothing | src/catalog/catalog.cpp:404-443 | DestroyDB can run on a database BootstrapDatabase made; its five pg_class rows fit in one scan batch, and none of its relations is freed |
| DatabaseDestroy.UserTableFreed | src/catalog/catalog.cpp:437-442 | next to pg_catalog rows, one user table's row makes the filter free exactly that table |
| DatabaseDestroy.Scanned | src/catalog/catalog.cpp:419-426 | one Scan into a buffer sized for 100 tuples delivers the first 100 rows, or all of them when there are fewer |
| DatabaseDestroy.ScanRows | src/catalog/catalog.cpp:433-443 | the loop over rows from..to extends the addresses freed so far to those the filter gives for the prefix up to `to` |
| DatabaseDestroy.UserTableFreedInBatch | src/catalog/catalog.cpp:419-443 | when fewer than 100 pg_catalog rows precede it, a user table's row is scanned and exactly that table is freed |
| DatabaseDestroy.LateUserTableLeaks | src/catalog/catalog.cpp:419-443 | after 100 or more pg_catalog rows, the complete filter would free the user table, but the single scan frees nothing |
| SystemCatalog.Catalog.GetNextOid | src/catalog/catalog.cpp:58 | returns the counter's value and advances it by one; nothing else changes |
| SystemCatalog.Catalog.NewTable | src/catalog/catalog.cpp:103 | a new table with no columns and no rows at the next address |
| SystemCatalog.Catalog.DefineColumn | src/catalog/catalog.cpp:140 | the schema at the address grows by the column |
| SystemCatalog.Catalog.InsertRow | src/catalog/catalog.cpp:157 | the rows at the address grow by the row |
| SystemCatalog.Catalog.RegisterTable | src/catalog/catalog.cpp:203-204 | the table is registered under `db` by oid and by name |
| SystemCatalog.Catalog.AddUnusedSchemaColumns | src/catalog/catalog.cpp:75-80 | the loop defines one non-nullable column per descriptor, each under the next oid |
| SystemCatalog.Catalog.DefineColumns | src/catalog/catalog.cpp:195-200 | the columns are defined one after the other |
| SystemCatalog.Catalog.AddColumnsToPGAttribute | src/catalog/catalog.cpp:82-98 | the loop appends one pg_attribute row per column of the table, in schema order |
| SystemCatalog.Catalog.CreateHandleTable | src/catalog/catalog.cpp:222 | a handle's Create, as HandleTable states it |
| SystemCatalog.Catalog.CreatePGDatabase | src/catalog/catalog.cpp:100-121 | the state BootstrapSteps.CreatePGDatabase gives |
| SystemCatalog.Catalog.PopulatePGDatabase | src/catalog/catalog.cpp:123-132 | the "terrier" row appended to pg_database |
| SystemCatalog.Catalog.CreatePGTablespace | src/catalog/catalog.cpp:134-145 | the state BootstrapSteps.CreatePGTablespace gives |
| SystemCatalog.Catalog.PopulatePGTablespace | src/catalog/catalog.cpp:147-166 | two fresh oids, then the pg_global and pg_default rows under them |
| SystemCatalog.Catalog.CreatePGAttribute | src/catalog/catalog.cpp:183-215 | the loop of six column oids, the table and the three descriptions, as BootstrapSteps.CreatePGAttribute |
| SystemCatalog.Catalog.CreatePGNameSpace | src/catalog/catalog.cpp:217-229 | the state BootstrapSteps.CreatePGNameSpace gives, with `NamespaceHandle::Create` taken as described under "## Left out" |
| SystemCatalog.Catalog.AddClassEntries | src/catalog/catalog.cpp:246-285 | the five pg_class rows, each with the looked-up address and oid, in source order |
| SystemCatalog.Catalog.CreatePGClass | src/catalog/catalog.cpp:231-286 | the state BootstrapSteps.CreatePGClass gives |
| SystemCatalog.Catalog.CreatePGAttrDef | src/catalog/catalog.cpp:180 | pg_attrdef made and registered under `db` |
| SystemCatalog.Catalog.BootstrapDatabase | src/catalog/catalog.cpp:168-181 | the state DatabaseBootstrap.BootstrapDatabase gives |
| SystemCatalog.Catalog.Bootstrap | src/catalog/catalog.cpp:60-73 | the state DatabaseBootstrap.Bootstrap gives |
| SystemCatalog.Catalog.constructor | src/catalog/catalog.cpp:19-23 | the counter starts at START_OID, Bootstrap runs, and the result is Bootstrapped |
| SystemCatalog.Catalog.AddEntryToPGDatabase | src/catalog/catalog.cpp:450-459 | the row (oid, name, fillers) appended and `map_[oid]` set empty |
| SystemCatalog.Catalog.CreateDatabase | src/catalog/catalog.cpp:25-28 | the state DatabaseOps.CreateDatabase gives |
| SystemCatalog.Catalog.DeleteDatabase | src/catalog/catalog.cpp:30-44 | the state DatabaseOps.DeleteDatabase gives |
| SystemCatalog.Catalog.GetDatabaseCatalog | src/catalog/catalog.cpp:50-52 | found exactly when the database and table oid are registered; under the invariant the table has that oid |
| SystemCatalog.Catalog.GetDatabaseCatalogByName | src/catalog/catalog.cpp:54-56 | the lookup by id of `name_map_[db][name]`; under the invariant, found exactly when the name is known, and the table has that oid |
| SystemCatalog.Catalog.ClassRowsToScan | src/catalog/catalog.cpp:411-432 | fails exactly when pg_class, pg_namespace or pg_catalog cannot be found; otherwise gives pg_class's rows and the oid of pg_catalog |
| SystemCatalog.Catalog.DestroyDB | src/catalog/catalog.cpp:404-446 | fails exactly when pg_class, pg_namespace or pg_catalog cannot be found; otherwise frees exactly the addresses the filter gives for the first 100 pg_class rows, the one batch its single Scan delivers |
| SystemCatalog.Catalog.DestroyDBInBatches | src/catalog/catalog.cpp:419-443 | the same failures; otherwise scans pg_class batch by batch and frees exactly the addresses the filter gives for all its rows |
| SystemCatalog.Catalog.InsertBuiltinType | src/catalog/catalog.cpp:314-321 | built-in type k inserted under the next oid |
| SystemCatalog.Catalog.CreatePGType | src/catalog/catalog.cpp:288-402 | the state TypeCatalog.CreatePGType gives |
| SystemCatalog.Catalog.InsertBuiltinTypes | src/catalog/catalog.cpp:313-401 | the nine built-in types inserted in order, each under a fresh oid |

## Left out

- Transactions: begin, commit, the commit callback and MVCC visibility. Every row is visible as soon as it is inserted, and the transaction argument is dropped.
- Logging macros and `Dump`: they have no effect on the catalog's state.
- Storage internals: `SqlTableRW` is a schema plus a sequence of rows at an abstract address, and `Create()` has no effect.
  - `DestroyDB`'s projected-column buffers, `InterpretAsRow` and aligned allocation are not modelled.
  - The address column is the value `Address(addr)`, not a raw machine address stored as an integer.
- SystemCatalog.Catalog.DestroyDB: returns the addresses it would free instead of deleting the tables.
  - Its single `Scan` fills a buffer sized for 100 tuples, so only the first 100 `pg_class` rows are examined; rows after the 100th are never freed (see "## Findings").
  - It reads the address column only when it holds an address.
  - It reports a missing pg_class, pg_namespace or pg_catalog as an error, where the source dereferences a null or throws.
- The handles (`DatabaseHandle`, `TablespaceHandle`, `NamespaceHandle`, `ClassHandle`, `AttrDefHandle`) are not part of this model. Their `Create`, `AddEntry`, `GetEntry`, `NameToOid` and `DeleteEntry` bodies are not shown.
  - `Create` is modelled as: a fresh table oid, a new table with its columns under fresh oids, and registration under the database.
  - `AddEntry` is modelled as a fresh oid and an appended (oid, name) row.
  - A lookup by name returns the first row with that name, or nothing.
  - The column lists of pg_namespace, pg_class and pg_attrdef are taken as their handles' schemas.
  - `NamespaceHandle::Create` (catalog.cpp:222) is taken also to add pg_namespace's columns to pg_attribute, as the system's documented bootstrap order says; `CreatePGNameSpace` itself makes no such call. `ClassHandle::Create` and `AttrDefHandle::Create` are taken not to.
  - `DatabaseHandle::schema_cols_` (catalog.cpp:106) is taken as the two columns (oid, datname).
- The filler column lists (`DatabaseHandle::unused_schema_cols_`, `pg_tablespace_unused_cols_`, `pg_type_unused_cols`) are a parameter of the catalog, because their contents are not shown.
- SystemCatalog.Catalog.constructor: requires that the pg_database and pg_tablespace filler lists use supported types. Otherwise `SetUnusedColumns` throws out of the constructor, and the model does not construct a half-built catalog.
- `type::TypeUtil::GetTypeSize` is the parameter `size`, taken as non-negative for every type, so only varchar's length is -1.
- Oids are unbounded integers. The 32-bit wrap-around of `oid_` is not modelled, so `Oids.IssuedDistinct` holds only for fewer than 2^32 issuances.
- `START_OID` (1001) and `DEFAULT_DATABASE_OID` (0) are taken as constants, because their definitions are not shown.
- `terrier_catalog`, the global `shared_ptr` to the catalog, is not modelled.
- SystemCatalog.Catalog.DeleteDatabase: requires that the name resolves to an entry. The source dereferences the entry without checking, which is undefined behaviour when the name is absent.
- SystemCatalog.Catalog.CreatePGType: requires that pg_namespace is registered under the database and holds `pg_catalog`. The source dereferences the result of `GetNamespaceEntry(txn, "pg_catalog")` without checking (catalog.cpp:308-309), which is undefined behaviour when it is absent.
- SystemCatalog.Catalog.GetDatabaseCatalog: `std::out_of_range` is modelled as the absent result `None`.
- The ghost history `issued` exists only to state the freshness of oids; the source keeps no such list.
- The pg_type rows are stored as written. The `typlen` column is SMALLINT, but the value written is a full integer, and no truncation is modelled.

## Findings

| source | as written | input that shows it | evidently intended | confidence | as-written member | corrected member |
|---|---|---|---|---|---|---|
| src/catalog/catalog.cpp:419-443 | `DestroyDB` calls `Scan` once into a buffer sized for 100 tuples and loops only over the tuples delivered | a `pg_class` with 100 rows in pg_catalog followed by one user table's row | every user table of the database is freed | medium, not executed | DatabaseDestroy.LateUserTableLeaks, SystemCatalog.Catalog.DestroyDB | SystemCatalog.Catalog.DestroyDBInBatches |

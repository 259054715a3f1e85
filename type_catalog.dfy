/**
 * pg_type: the relation of built-in types CreatePGType makes, and the nine rows it seeds it
 * with. Storage sizes come from type::TypeUtil::GetTypeSize, which is a parameter here.
 */
module TypeCatalog {
  import opened Wrappers
  import opened Values
  import opened Oids
  import opened Fillers
  import opened CatalogRows
  import opened Directory
  import opened CatalogState

  /** The typlen a built-in type gets: its storage size, except -1 for the variable-length varchar. */
  function TypeLength(t: TypeId, size: TypeId -> nat): int
  {
    if t == Varchar then -1 else size(t)
  }

  /**
   * One insertion of CreatePGType: a fresh oid, then the row (oid, name, namespace, typlen, "b")
   * appended to the table at `addr`.
   */
  ghost function InsertType(s: State, addr: nat, nsOid: int, size: TypeId -> nat, ty: (string, TypeId)): State
    requires addr in s.storage
  {
    WithRows(Issue(s), addr, [TypeRow(s.nextOid, ty.0, nsOid, TypeLength(ty.1, size))])
  }

  /** The insertions of CreatePGType for `types`, one after the other. */
  ghost function InsertTypes(s: State, addr: nat, nsOid: int, size: TypeId -> nat, types: seq<(string, TypeId)>): State
    requires addr in s.storage
    decreases |types|
  {
    if types == [] then s
    else InsertTypes(InsertType(s, addr, nsOid, size, types[0]), addr, nsOid, size, types[1..])
  }

  /** The rows the insertions for `types` append, under consecutive oids from `first`. */
  function TypeRows(first: nat, nsOid: int, size: TypeId -> nat, types: seq<(string, TypeId)>): (r: seq<Row>)
    ensures |r| == |types|
  {
    seq(|types|, i requires 0 <= i < |types| => TypeRow(first + i, types[i].0, nsOid, TypeLength(types[i].1, size)))
  }

  /**
   * The insertions for `types` hand out one oid per type and append one row per type, in
   * order, under those oids; nothing else changes.
   */
  lemma {:induction false} InsertTypesEffect(s: State, addr: nat, nsOid: int, size: TypeId -> nat, types: seq<(string, TypeId)>)
    requires addr in s.storage
    ensures InsertTypes(s, addr, nsOid, size, types) ==
            WithRows(IssueMany(s, |types|), addr, TypeRows(s.nextOid, nsOid, size, types))
    decreases |types|
  {
    if types != [] {
      var o := s.nextOid;
      var head := [TypeRow(o, types[0].0, nsOid, TypeLength(types[0].1, size))];
      TypeRowsCons(o, nsOid, size, types);
      var s1 := InsertType(s, addr, nsOid, size, types[0]);
      InsertTypeOne(s, addr, nsOid, size, types[0]);
      assert InsertTypes(s, addr, nsOid, size, types) == InsertTypes(s1, addr, nsOid, size, types[1..]);
      InsertTypesEffect(s1, addr, nsOid, size, types[1..]);
      RowsAfterRows(s, addr, 1, head, |types| - 1, TypeRows(o + 1, nsOid, size, types[1..]));
    } else {
      NoRows(s, addr);
    }
  }

  /** The rows for a list of types are the first type's row, then the rows for the rest. */
  lemma TypeRowsCons(first: nat, nsOid: int, size: TypeId -> nat, types: seq<(string, TypeId)>)
    requires types != []
    ensures [TypeRow(first, types[0].0, nsOid, TypeLength(types[0].1, size))] + TypeRows(first + 1, nsOid, size, types[1..]) ==
            TypeRows(first, nsOid, size, types)
  {
    var l := [TypeRow(first, types[0].0, nsOid, TypeLength(types[0].1, size))] + TypeRows(first + 1, nsOid, size, types[1..]);
    assert forall i :: 0 <= i < |types| ==> l[i] == TypeRows(first, nsOid, size, types)[i];
  }

  /** One insertion is one oid issued and one row appended. */
  lemma InsertTypeOne(s: State, addr: nat, nsOid: int, size: TypeId -> nat, ty: (string, TypeId))
    requires addr in s.storage
    ensures InsertType(s, addr, nsOid, size, ty) ==
            WithRows(IssueMany(s, 1), addr, [TypeRow(s.nextOid, ty.0, nsOid, TypeLength(ty.1, size))])
  {
    assert Consecutive(s.nextOid, 1) == [s.nextOid];
  }

  /** Issuing no oids and appending no rows changes nothing. */
  lemma NoRows(s: State, addr: nat)
    requires addr in s.storage
    ensures WithRows(IssueMany(s, 0), addr, []) == s
  {
    assert s.issued + Consecutive(s.nextOid, 0) == s.issued;
    assert s.storage[addr] + [] == s.storage[addr];
  }

  /** Issuing `m` oids and appending `h`, then `n` more oids and `t`, is issuing `m + n` and appending `h + t`. */
  lemma RowsAfterRows(s: State, addr: nat, m: nat, h: seq<Row>, n: nat, t: seq<Row>)
    requires addr in s.storage
    ensures var s1 := WithRows(IssueMany(s, m), addr, h);
            WithRows(IssueMany(s1, n), addr, t) == WithRows(IssueMany(s, m + n), addr, h + t)
  {
    ConsecutiveAppend(s.nextOid, m, n);
    assert s.storage[addr] + h + t == s.storage[addr] + (h + t);
  }

  /** The nine built-in rows are the rows the insertions for BUILTIN_TYPES append. */
  lemma BuiltinTypeRowsInserted(first: nat, nsOid: int, size: TypeId -> nat)
    ensures TypeRows(first, nsOid, size, BUILTIN_TYPES) == BuiltinTypeRows(first, nsOid, size)
  {
    var l, r := TypeRows(first, nsOid, size, BUILTIN_TYPES), BuiltinTypeRows(first, nsOid, size);
    assert forall i :: 0 <= i < 9 ==> l[i] == r[i];
  }

  /** CreatePGType looks up pg_catalog in `db`'s pg_namespace. */
  ghost predicate TypesReady(s: State, db: nat)
  {
    && Registered(s, db, "pg_namespace")
    && Found(s, db, "pg_namespace") in s.storage
    && LookupOid(s.storage[Found(s, db, "pg_namespace")], "pg_catalog").Some?
  }

  /** The oid of pg_catalog in `db`'s pg_namespace. */
  ghost function PgCatalog(s: State, db: nat): int
    requires TypesReady(s, db)
  {
    LookupOid(s.storage[Found(s, db, "pg_namespace")], "pg_catalog").value
  }

  /**
   * CreatePGType(db): pg_type under a fresh oid at the next address, its five used columns and
   * then its filler columns under the next oids, registered under `db`; then the nine built-in
   * types, each under a fresh oid, in the namespace pg_catalog.
   */
  ghost function CreatePGType(s: State, db: nat, size: TypeId -> nat): State
    requires Inv(s) && TypesReady(s, db)
  {
    var cols := TYPE_SCHEMA_COLS + s.fillers.types;
    var s1 := HandleTable(s, db, "pg_type", cols);
    HandleTableEffect(s, db, "pg_type", cols);
    HandleTableKeepsLookup(s, db, "pg_type", cols, db, "pg_namespace");
    InsertTypes(s1, s.nextAddr, PgCatalog(s1, db), size, BUILTIN_TYPES)
  }

  /** Creating pg_type keeps the invariant and every lookup of another name. */
  lemma CreatePGTypeKeeps(s: State, db: nat, size: TypeId -> nat, db': nat, name': string)
    requires Inv(s) && TypesReady(s, db) && db < s.nextOid && (db' != db || name' != "pg_type")
    ensures var r := CreatePGType(s, db, size);
            && Inv(r)
            && GetDatabaseCatalogByName(r.tableMap, r.nameMap, db', name') ==
               GetDatabaseCatalogByName(s.tableMap, s.nameMap, db', name')
  {
    var cols := TYPE_SCHEMA_COLS + s.fillers.types;
    HandleTableKeeps(s, db, "pg_type", cols);
    HandleTableEffect(s, db, "pg_type", cols);
    HandleTableKeepsLookup(s, db, "pg_type", cols, db, "pg_namespace");
    HandleTableKeepsLookup(s, db, "pg_type", cols, db', name');
    var s1 := HandleTable(s, db, "pg_type", cols);
    var nsOid := PgCatalog(s1, db);
    InsertTypesEffect(s1, s.nextAddr, nsOid, size, BUILTIN_TYPES);
    AppendKeeps(s1, s.nextAddr, 9, TypeRows(s1.nextOid, nsOid, size, BUILTIN_TYPES));
  }

  /** Handing out oids and appending rows to a stored table keeps the invariant and the directories. */
  lemma AppendKeeps(s: State, addr: nat, n: nat, rows: seq<Row>)
    requires Inv(s) && addr in s.storage
    ensures var r := WithRows(IssueMany(s, n), addr, rows);
            Inv(r) && r.tableMap == s.tableMap && r.nameMap == s.nameMap
  {
    IssueManyKeeps(s, n);
  }

  /**
   * pg_type sits at the next address with its used and filler columns under consecutive oids,
   * `db` finds it by name, and it holds exactly the nine built-in rows under the oids after its
   * columns', in the namespace pg_catalog; no other table changes.
   */
  lemma CreatePGTypeEffect(s: State, db: nat, size: TypeId -> nat)
    requires Inv(s) && TypesReady(s, db)
    ensures var r, a, o := CreatePGType(s, db, size), s.nextAddr, s.nextOid;
            var cols := TYPE_SCHEMA_COLS + s.fillers.types;
            && r.tables == s.tables[a := Table(o, NewColumns(cols, o + 1))]
            && r.storage == s.storage[a := BuiltinTypeRows(o + 1 + |cols|, PgCatalog(s, db), size)]
            && r.nextOid == o + 1 + |cols| + 9 && r.nextAddr == a + 1
            && r.fillers == s.fillers && r.pgDatabase == s.pgDatabase && r.pgTablespace == s.pgTablespace
            && Finds(r, db, "pg_type", a)
  {
    var a, cols := s.nextAddr, TYPE_SCHEMA_COLS + s.fillers.types;
    HandleTableEffect(s, db, "pg_type", cols);
    HandleTableKeepsLookup(s, db, "pg_type", cols, db, "pg_namespace");
    var s1 := HandleTable(s, db, "pg_type", cols);
    var nsOid := PgCatalog(s1, db);
    assert nsOid == PgCatalog(s, db);
    InsertTypesEffect(s1, a, nsOid, size, BUILTIN_TYPES);
    BuiltinTypeRowsInserted(s1.nextOid, nsOid, size);
    TypesCompose(s, s1, CreatePGType(s, db, size), db, nsOid, size);
  }

  /** Appending the built-in rows to a just-created, empty pg_type gives the closed form. */
  lemma TypesCompose(s: State, s1: State, r: State, db: nat, nsOid: int, size: TypeId -> nat)
    requires var a, o, cols := s.nextAddr, s.nextOid, TYPE_SCHEMA_COLS + s.fillers.types;
             && s1.tables == s.tables[a := Table(o, NewColumns(cols, o + 1))]
             && s1.storage == s.storage[a := []]
             && s1.nextOid == o + 1 + |cols| && s1.nextAddr == a + 1
             && s1.fillers == s.fillers && s1.pgDatabase == s.pgDatabase && s1.pgTablespace == s.pgTablespace
             && Finds(s1, db, "pg_type", a)
             && r == WithRows(IssueMany(s1, 9), a, BuiltinTypeRows(s1.nextOid, nsOid, size))
    ensures var a, o, cols := s.nextAddr, s.nextOid, TYPE_SCHEMA_COLS + s.fillers.types;
            && r.tables == s.tables[a := Table(o, NewColumns(cols, o + 1))]
            && r.storage == s.storage[a := BuiltinTypeRows(o + 1 + |cols|, nsOid, size)]
            && r.nextOid == o + 1 + |cols| + 9 && r.nextAddr == a + 1
            && r.fillers == s.fillers && r.pgDatabase == s.pgDatabase && r.pgTablespace == s.pgTablespace
            && Finds(r, db, "pg_type", a)
  {
    assert [] + BuiltinTypeRows(s1.nextOid, nsOid, size) == BuiltinTypeRows(s1.nextOid, nsOid, size);
  }

  /** The state after the first `k` built-in types went into the table at `addr`. */
  ghost function TypesInserted(s: State, addr: nat, nsOid: int, size: TypeId -> nat, k: nat): State
    requires addr in s.storage && k <= 9
  {
    WithRows(IssueMany(s, k), addr, BuiltinTypeRows(s.nextOid, nsOid, size)[..k])
  }

  /** Inserting built-in type k, under the next oid, after the first k. */
  lemma TypesInsertedStep(s: State, addr: nat, nsOid: int, size: TypeId -> nat, k: nat)
    requires addr in s.storage && k < 9
    ensures var t := TypesInserted(s, addr, nsOid, size, k);
            && t.nextOid == s.nextOid + k
            && WithRows(Issue(t), addr, [TypeRow(s.nextOid + k, BUILTIN_TYPES[k].0, nsOid, TypeLength(BUILTIN_TYPES[k].1, size))]) ==
               TypesInserted(s, addr, nsOid, size, k + 1)
  {
    var rows := BuiltinTypeRows(s.nextOid, nsOid, size);
    BuiltinTypeRowsInserted(s.nextOid, nsOid, size);
    assert rows[k] == TypeRow(s.nextOid + k, BUILTIN_TYPES[k].0, nsOid, TypeLength(BUILTIN_TYPES[k].1, size));
    RowsAfterRows(s, addr, k, rows[..k], 1, [rows[k]]);
    assert rows[..k] + [rows[k]] == rows[..k + 1];
    assert Consecutive(s.nextOid + k, 1) == [s.nextOid + k];
  }

  /** No built-in type inserted yet, and all nine. */
  lemma TypesInsertedEnds(s: State, addr: nat, nsOid: int, size: TypeId -> nat)
    requires addr in s.storage
    ensures TypesInserted(s, addr, nsOid, size, 0) == s
    ensures TypesInserted(s, addr, nsOid, size, 9) == InsertTypes(s, addr, nsOid, size, BUILTIN_TYPES)
  {
    NoRows(s, addr);
    assert BuiltinTypeRows(s.nextOid, nsOid, size)[..0] == [];
    assert BuiltinTypeRows(s.nextOid, nsOid, size)[..9] == BuiltinTypeRows(s.nextOid, nsOid, size);
    InsertTypesEffect(s, addr, nsOid, size, BUILTIN_TYPES);
    BuiltinTypeRowsInserted(s.nextOid, nsOid, size);
  }
}

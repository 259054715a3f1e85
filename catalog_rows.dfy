/**
 * The shapes of the rows the catalog writes into its system relations, the name lookup
 * the catalog handles perform over them, and the pg_class row filter of database destruction.
 */
module CatalogRows {
  import opened Wrappers
  import opened Values

  // ---------------------------------------------------------------------------------------
  // Entry rows: pg_database, pg_tablespace and pg_namespace rows start with (oid, name).

  /** A row (oid, name, fillers...). */
  function EntryRow(oid: int, name: string, fillers: seq<Value>): Row
  {
    [Int(oid), Str(name)] + fillers
  }

  /** The oid in an entry row's first column (-1 when the column holds no integer). */
  function OidOf(row: Row): int
  {
    if |row| > 0 && row[0].Int? then row[0].i else -1
  }

  /**
   * The relation holds exactly one entry per name of `names`, in that order, each
   * followed by `fillers`, and the entries' oids increase in row order.
   */
  ghost predicate SeededWith(rows: seq<Row>, names: seq<string>, fillers: seq<Value>)
  {
    && |rows| == |names|
    && (forall i :: 0 <= i < |rows| ==> rows[i] == EntryRow(OidOf(rows[i]), names[i], fillers))
    && (forall i :: 0 < i < |rows| ==> OidOf(rows[i - 1]) < OidOf(rows[i]))
  }

  /** The row carries `name` in its name column (the second one). */
  predicate NamedRow(row: Row, name: string)
  {
    |row| >= 2 && row[1] == Str(name)
  }

  /**
   * The position of the first row named `name`: the row a handle's GetEntry(txn, name)
   * scan stops at; None when no row has that name.
   */
  function FindNamed(rows: seq<Row>, name: string): (r: Option<nat>)
    ensures r.Some? ==> r.value < |rows| && NamedRow(rows[r.value], name)
    ensures r.Some? ==> forall j :: 0 <= j < r.value ==> !NamedRow(rows[j], name)
    ensures r.None? <==> forall j :: 0 <= j < |rows| ==> !NamedRow(rows[j], name)
    decreases |rows|
  {
    if rows == [] then None
    else if NamedRow(rows[0], name) then Some(0)
    else
      match FindNamed(rows[1..], name)
      case None =>
        assert forall j :: 1 <= j < |rows| ==> rows[j] == rows[1..][j - 1];
        None
      case Some(k) =>
        assert forall j :: 1 <= j <= k ==> rows[j] == rows[1..][j - 1];
        Some(k + 1)
  }

  /**
   * The oid an entry found by name reports (GetNamespaceOid, GetTablespaceOid, GetDatabaseOid):
   * the integer in the first column of the first row with that name.
   */
  function LookupOid(rows: seq<Row>, name: string): Option<int>
  {
    match FindNamed(rows, name)
    case None => None
    case Some(i) => if rows[i][0].Int? then Some(rows[i][0].i) else None
  }

  /** In a seeded relation whose names are distinct, each name resolves to its own entry's oid. */
  lemma LookupSeeded(rows: seq<Row>, names: seq<string>, fillers: seq<Value>, i: nat)
    requires SeededWith(rows, names, fillers)
    requires i < |names|
    requires forall j :: 0 <= j < i ==> names[j] != names[i]
    ensures LookupOid(rows, names[i]) == Some(OidOf(rows[i]))
  {
    assert rows[i] == EntryRow(OidOf(rows[i]), names[i], fillers);
    forall j | 0 <= j < i
      ensures !NamedRow(rows[j], names[i])
    {
      assert rows[j] == EntryRow(OidOf(rows[j]), names[j], fillers);
    }
    FindNamedFirst(rows, names[i], i);
  }

  /** Appending an entry under a name not used before makes that name resolve to the new oid. */
  lemma LookupNewEntry(rows: seq<Row>, oid: int, name: string, fillers: seq<Value>)
    requires FindNamed(rows, name).None?
    ensures LookupOid(rows + [EntryRow(oid, name, fillers)], name) == Some(oid)
  {
    var rows' := rows + [EntryRow(oid, name, fillers)];
    assert NamedRow(rows'[|rows|], name);
    assert forall j :: 0 <= j < |rows| ==> rows'[j] == rows[j];
  }

  /** Appending a row under another name leaves every lookup of `name` as it was. */
  lemma LookupOtherEntry(rows: seq<Row>, row: Row, name: string)
    requires !NamedRow(row, name)
    ensures FindNamed(rows + [row], name) == FindNamed(rows, name)
    ensures LookupOid(rows + [row], name) == LookupOid(rows, name)
  {
    var rows' := rows + [row];
    assert forall j :: 0 <= j < |rows| ==> rows'[j] == rows[j];
    assert rows'[|rows|] == row;
  }

  /** Rows appended after a name's first entry never change what that name resolves to. */
  lemma LookupFirstEntryWins(rows: seq<Row>, more: seq<Row>, name: string)
    requires FindNamed(rows, name).Some?
    ensures FindNamed(rows + more, name) == FindNamed(rows, name)
    ensures LookupOid(rows + more, name) == LookupOid(rows, name)
  {
    var rows' := rows + more;
    assert forall j :: 0 <= j < |rows| ==> rows'[j] == rows[j];
  }

  /** The rows left after a handle's DeleteEntry removes the row at position i. */
  function RemoveAt(rows: seq<Row>, i: nat): (r: seq<Row>)
    requires i < |rows|
    ensures |r| == |rows| - 1
    ensures forall j :: 0 <= j < i ==> r[j] == rows[j]
    ensures forall j :: i < j < |rows| ==> r[j - 1] == rows[j]
  {
    rows[..i] + rows[i + 1..]
  }

  /** The first row carrying a name is the one FindNamed reports. */
  lemma FindNamedFirst(rows: seq<Row>, name: string, k: nat)
    requires k < |rows| && NamedRow(rows[k], name)
    requires forall j :: 0 <= j < k ==> !NamedRow(rows[j], name)
    ensures FindNamed(rows, name) == Some(k)
  {
  }

  /** Deleting the only row that carries a name leaves the name unresolvable. */
  lemma RemoveOnlyEntry(rows: seq<Row>, i: nat, name: string)
    requires i < |rows|
    requires forall j :: 0 <= j < |rows| && j != i ==> !NamedRow(rows[j], name)
    ensures FindNamed(RemoveAt(rows, i), name).None?
  {
    var r := RemoveAt(rows, i);
    forall j | 0 <= j < |r|
      ensures !NamedRow(r[j], name)
    {
      if j < i { assert r[j] == rows[j]; } else { assert r[j] == rows[j + 1]; }
    }
  }

  /** Deleting a row under another name leaves every lookup of `name` resolving to the same oid. */
  lemma RemoveOtherEntry(rows: seq<Row>, i: nat, name: string)
    requires i < |rows| && !NamedRow(rows[i], name)
    ensures LookupOid(RemoveAt(rows, i), name) == LookupOid(rows, name)
  {
    var r := RemoveAt(rows, i);
    match FindNamed(rows, name)
    case None =>
      RemoveOnlyEntry(rows, i, name);
    case Some(k) =>
      var k' := if k < i then k else k - 1;
      assert r[k'] == rows[k];
      forall j | 0 <= j < k'
        ensures !NamedRow(r[j], name)
      {
        if j < i { assert r[j] == rows[j]; } else { assert r[j] == rows[j + 1]; }
      }
      FindNamedFirst(r, name, k');
  }

  // ---------------------------------------------------------------------------------------
  // pg_attribute rows: one per column, (col oid, table oid, col name, 0, 0, 0).

  function AttributeRow(c: Column, tableOid: nat): Row
  {
    [Int(c.oid), Int(tableOid), Str(c.name), Int(0), Int(0), Int(0)]
  }

  /**
   * The rows AddColumnsToPGAttribute writes for the table with oid `tableOid` and
   * columns `cols`, built one column at a time as the loop does.
   */
  function AttributeRows(tableOid: nat, cols: seq<Column>): (r: seq<Row>)
    ensures |r| == |cols|
  {
    if cols == [] then [] else AttributeRows(tableOid, cols[..|cols| - 1]) + [AttributeRow(cols[|cols| - 1], tableOid)]
  }

  /** Attribute row k describes column k: one row per column, in schema order. */
  lemma {:induction false} AttributeRowAt(tableOid: nat, cols: seq<Column>, k: nat)
    requires k < |cols|
    ensures AttributeRows(tableOid, cols)[k] == AttributeRow(cols[k], tableOid)
    decreases |cols|
  {
    if k < |cols| - 1 {
      AttributeRowAt(tableOid, cols[..|cols| - 1], k);
    }
  }

  /** The attribute rows of a table whose schema grew by one column gain exactly that column's row. */
  lemma AttributeRowsSnoc(tableOid: nat, cols: seq<Column>, i: nat)
    requires i < |cols|
    ensures AttributeRows(tableOid, cols[..i + 1]) == AttributeRows(tableOid, cols[..i]) + [AttributeRow(cols[i], tableOid)]
  {
    assert cols[..i + 1][..i] == cols[..i];
  }

  /** Some row of pg_attribute names column k of table t, under t's oid. */
  ghost predicate Describes(attrRows: seq<Row>, t: Table, k: nat)
    requires k < |t.columns|
  {
    exists j :: 0 <= j < |attrRows| && attrRows[j] == AttributeRow(t.columns[k], t.oid)
  }

  /** A pg_attribute that holds a table's attribute rows describes every column of that table. */
  lemma AttributeRowsDescribe(before: seq<Row>, t: Table, after: seq<Row>)
    ensures forall k :: 0 <= k < |t.columns| ==> Describes(before + AttributeRows(t.oid, t.columns) + after, t, k)
  {
    var all := before + AttributeRows(t.oid, t.columns) + after;
    forall k | 0 <= k < |t.columns|
      ensures Describes(all, t, k)
    {
      AttributeRowAt(t.oid, t.columns, k);
      assert all[|before| + k] == AttributeRows(t.oid, t.columns)[k];
    }
  }

  // ---------------------------------------------------------------------------------------
  // pg_class rows: (table address, relation oid, name, namespace oid, tablespace oid).

  function ClassRow(addr: nat, oid: nat, name: string, nsOid: int, tsOid: int): Row
  {
    [Address(addr), Int(oid), Str(name), Int(nsOid), Int(tsOid)]
  }

  /**
   * DestroyDB's test for one pg_class row: its namespace column differs from the pg_catalog
   * oid, so it describes a user table whose storage, at `addr`, must be freed.
   */
  predicate Reclaims(row: Row, catalogNs: int, addr: nat)
  {
    |row| > 3 && row[3] != Int(catalogNs) && row[0] == Address(addr)
  }

  /** Some pg_class row asks for the table at `addr` to be freed. */
  ghost predicate ReclaimedBy(rows: seq<Row>, catalogNs: int, addr: nat)
  {
    exists i :: 0 <= i < |rows| && Reclaims(rows[i], catalogNs, addr)
  }

  /** A pg_class row in the pg_catalog namespace is never reclaimed, whatever table it names. */
  lemma CatalogRowsKept(rows: seq<Row>, catalogNs: int, addr: nat)
    requires forall i :: 0 <= i < |rows| ==> |rows[i]| > 3 && rows[i][3] == Int(catalogNs)
    ensures !ReclaimedBy(rows, catalogNs, addr)
  {
  }

  /**
   * System relations stay, user relations go: next to rows in the pg_catalog namespace,
   * a row for a table in another namespace is reclaimed, and it alone.
   */
  lemma OnlyUserTableReclaimed(system: seq<Row>, catalogNs: int, user: nat, oid: nat, name: string, nsOid: int, tsOid: int)
    requires forall i :: 0 <= i < |system| ==> |system[i]| > 3 && system[i][3] == Int(catalogNs)
    requires nsOid != catalogNs
    ensures forall a :: ReclaimedBy(system + [ClassRow(user, oid, name, nsOid, tsOid)], catalogNs, a) <==> a == user
  {
    var rows := system + [ClassRow(user, oid, name, nsOid, tsOid)];
    assert Reclaims(rows[|system|], catalogNs, user);
    forall a | ReclaimedBy(rows, catalogNs, a)
      ensures a == user
    {
      var i :| 0 <= i < |rows| && Reclaims(rows[i], catalogNs, a);
      if i < |system| {
        assert rows[i] == system[i];
      }
    }
  }

  // ---------------------------------------------------------------------------------------
  // pg_type rows: (oid, name, namespace oid, length, "b").

  function TypeRow(oid: nat, name: string, nsOid: int, len: int): Row
  {
    [Int(oid), Str(name), Int(nsOid), Int(len), Str("b")]
  }

  /** The built-in types pg_type is seeded with, in insertion order. */
  const BUILTIN_TYPES: seq<(string, TypeId)> :=
    [("boolean", Boolean), ("tinyint", TinyInt), ("smallint", SmallInt), ("integer", Integer),
     ("date", Date), ("bigint", BigInt), ("decimal", Decimal), ("timestamp", Timestamp),
     ("varchar", Varchar)]

  /**
   * The nine pg_type rows: consecutive oids from `first`, all in namespace `nsOid`; every
   * fixed-size type reports the storage size `size` gives it, and only varchar is variable (-1).
   */
  function BuiltinTypeRows(first: nat, nsOid: int, size: TypeId -> nat): (r: seq<Row>)
    ensures |r| == |BUILTIN_TYPES| == 9
    ensures forall i :: 0 <= i < |r| ==> |r[i]| == 5
    ensures forall i :: 0 <= i < |r| ==>
              r[i][0] == Int(first + i) && r[i][1] == Str(BUILTIN_TYPES[i].0) && r[i][2] == Int(nsOid)
    ensures forall i :: 0 <= i < |r| ==> (r[i][3] == Int(-1) <==> BUILTIN_TYPES[i].0 == "varchar")
    ensures forall i :: 0 <= i < |r| && BUILTIN_TYPES[i].1 != Varchar ==> r[i][3] == Int(size(BUILTIN_TYPES[i].1))
  {
    [TypeRow(first, "boolean", nsOid, size(Boolean)),
     TypeRow(first + 1, "tinyint", nsOid, size(TinyInt)),
     TypeRow(first + 2, "smallint", nsOid, size(SmallInt)),
     TypeRow(first + 3, "integer", nsOid, size(Integer)),
     TypeRow(first + 4, "date", nsOid, size(Date)),
     TypeRow(first + 5, "bigint", nsOid, size(BigInt)),
     TypeRow(first + 6, "decimal", nsOid, size(Decimal)),
     TypeRow(first + 7, "timestamp", nsOid, size(Timestamp)),
     TypeRow(first + 8, "varchar", nsOid, -1)]
  }
}

/**
 * The entities the catalog works on: logical types, the values a catalog row is built
 * from, column descriptors and the storage tables (SqlTableRW) that hold catalog rows.
 */
module Values {

  /** The logical types the catalog mentions (type::TypeId). */
  datatype TypeId = Boolean | TinyInt | SmallInt | Integer | BigInt | Decimal | Timestamp | Date | Varchar

  /**
   * A value in a catalog row (type::Value): an integer, a string, a boolean, a typed NULL,
   * or the address of a storage table, which pg_class keeps in its first column.
   */
  datatype Value =
    | Int(i: int)
    | Str(s: string)
    | Bool(b: bool)
    | Null(typeId: TypeId)
    | Address(addr: nat)

  type Row = seq<Value>

  /** A column descriptor of a fixed catalog schema (SchemaCols): a name and a type. */
  datatype SchemaCol = SchemaCol(name: string, typeId: TypeId)

  /** A column of a storage table as DefineColumn records it. */
  datatype Column = Column(name: string, typeId: TypeId, nullable: bool, oid: nat)

  /**
   * A catalog table wrapper (SqlTableRW): its own oid and its declared columns in order.
   * Its rows live in storage, apart from the schema.
   */
  datatype Table = Table(oid: nat, columns: seq<Column>)

  /** Errors the catalog raises instead of returning a value. */
  datatype Error =
    | NotImplemented(message: string)
    | NotFound(what: string)
}

/**
 * Filler ("unused") columns: catalog relations carry PostgreSQL columns the engine does not
 * use yet, and every row written into them gets one placeholder value per such column.
 */
module Fillers {
  import opened Wrappers
  import opened Values

  const UNSUPPORTED_FILLER := "unsupported type in SetUnusedSchemaColumns (by vec)"

  /** The placeholder for one filler column: false, 0 or a VARCHAR NULL; no other type has one. */
  function FillerValue(t: TypeId): Option<Value>
  {
    match t
    case Boolean => Some(Bool(false))
    case Integer => Some(Int(0))
    case Varchar => Some(Null(Varchar))
    case _ => None
  }

  /** Every filler column has a type the placeholder switch handles. */
  ghost predicate Supported(cols: seq<SchemaCol>)
  {
    forall i :: 0 <= i < |cols| ==> FillerValue(cols[i].typeId).Some?
  }

  /**
   * The placeholders for a list of filler columns, one per column in column order;
   * the whole list fails as soon as one column has an unsupported type.
   */
  function UnusedValues(cols: seq<SchemaCol>): (r: Result<seq<Value>, Error>)
    ensures r.Ok? <==> Supported(cols)
    ensures r.Ok? ==> |r.value| == |cols|
    ensures r.Ok? ==> forall i :: 0 <= i < |cols| ==> Some(r.value[i]) == FillerValue(cols[i].typeId)
    ensures r.Err? ==> r.error == NotImplemented(UNSUPPORTED_FILLER)
  {
    if cols == [] then Ok([])
    else
      match FillerValue(cols[0].typeId)
      case None => Err(NotImplemented(UNSUPPORTED_FILLER))
      case Some(v) =>
        match UnusedValues(cols[1..])
        case Err(e) => Err(e)
        case Ok(rest) =>
          assert forall i :: 1 <= i < |cols| ==> cols[i] == cols[1..][i - 1];
          Ok([v] + rest)
  }

  /**
   * SetUnusedColumns: append the placeholder of every filler column to a row under
   * construction, or raise NotImplemented on the first column whose type has none.
   */
  method SetUnusedColumns(row: Row, cols: seq<SchemaCol>) returns (r: Result<Row, Error>)
    ensures r.Ok? <==> Supported(cols)
    ensures r.Ok? ==> |r.value| == |row| + |cols| && r.value[..|row|] == row
    ensures r.Ok? ==> forall i :: 0 <= i < |cols| ==> Some(r.value[|row| + i]) == FillerValue(cols[i].typeId)
    ensures r.Err? ==> r.error == NotImplemented(UNSUPPORTED_FILLER)
    ensures r.Ok? ==> r.value == row + Fill(cols)
  {
    var vec := row;
    var i := 0;
    while i < |cols|
      invariant 0 <= i <= |cols|
      invariant |vec| == |row| + i && vec[..|row|] == row
      invariant forall k :: 0 <= k < i ==> Some(vec[|row| + k]) == FillerValue(cols[k].typeId)
    {
      match FillerValue(cols[i].typeId)
      case None =>
        return Err(NotImplemented(UNSUPPORTED_FILLER));
      case Some(v) =>
        vec := vec + [v];
      i := i + 1;
    }
    SetUnusedColumnsIsFill(row, cols, vec);
    return Ok(vec);
  }

  /** The placeholders of a supported filler list, as the rows the catalog writes carry them. */
  function Fill(cols: seq<SchemaCol>): (r: seq<Value>)
    requires Supported(cols)
    ensures |r| == |cols|
    ensures forall i :: 0 <= i < |cols| ==> Some(r[i]) == FillerValue(cols[i].typeId)
  {
    UnusedValues(cols).value
  }

  /** The imperative filler loop and its functional specification produce the same row. */
  lemma SetUnusedColumnsIsFill(row: Row, cols: seq<SchemaCol>, r: Row)
    requires Supported(cols)
    requires |r| == |row| + |cols| && r[..|row|] == row
    requires forall i :: 0 <= i < |cols| ==> Some(r[|row| + i]) == FillerValue(cols[i].typeId)
    ensures r == row + Fill(cols)
  {
    var f := Fill(cols);
    assert forall i :: 0 <= i < |cols| ==> r[|row| + i] == f[i];
  }
}

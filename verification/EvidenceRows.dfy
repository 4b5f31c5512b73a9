/** What the two evidence verifiers share: rows as they are read, and the ids that rows go by. */
module EvidenceRows {
  import Decimal
  import opened Options

  /** An entry of a list of rows; R is what the verifier reads from a row besides its id. */
  datatype Raw<R> = NotAnObject | Object(id: Option<string>, row: R)

  /** The id of a row, or one made from its place if it has none. */
  function RowId<R>(raw: Raw<R>, index: nat): (id: string) {
    if raw.Object? && raw.id.Some? && raw.id.value != "" then raw.id.value else "request-" + Decimal.Show(index)
  }

  /** A row with a name goes by it; rows without one go by their place, each by another name. */
  lemma RowIdMeans<R>(raw: Raw<R>, other: Raw<R>, i: nat, j: nat)
    ensures raw.Object? && raw.id.Some? && raw.id.value != "" ==> RowId(raw, i) == raw.id.value
    ensures !(raw.Object? && raw.id.Some? && raw.id.value != "") ==> RowId(raw, i) == "request-" + Decimal.Show(i)
    ensures i != j ==> "request-" + Decimal.Show(i) != "request-" + Decimal.Show(j)
  {
    Decimal.ReadShow(i);
    Decimal.ReadShow(j);
    var a, b := "request-" + Decimal.Show(i), "request-" + Decimal.Show(j);
    assert a[8..] == Decimal.Show(i) && b[8..] == Decimal.Show(j);
  }

  ghost predicate Known<R>(rows: seq<Raw<R>>, id: string) {
    exists i :: 0 <= i < |rows| && rows[i].Object? && RowId(rows[i], i) == id
  }

  ghost predicate UniqueIds<R>(rows: seq<Raw<R>>) {
    forall i, j :: 0 <= i < j < |rows| && rows[i].Object? && rows[j].Object? ==> RowId(rows[i], i) != RowId(rows[j], j)
  }

  lemma KnownNext<R>(rows: seq<Raw<R>>, raw: Raw<R>, id: string)
    ensures Known(rows + [raw], id) <==> Known(rows, id) || (raw.Object? && RowId(raw, |rows|) == id)
  {
    hide RowId;
    if Known(rows, id) {
      var i :| 0 <= i < |rows| && rows[i].Object? && RowId(rows[i], i) == id;
      assert (rows + [raw])[i] == rows[i];
    }
    if raw.Object? && RowId(raw, |rows|) == id {
      assert (rows + [raw])[|rows|] == raw;
    }
  }

  lemma UniqueNext<R>(rows: seq<Raw<R>>, raw: Raw<R>)
    ensures UniqueIds(rows + [raw]) <==> UniqueIds(rows) && (raw.Object? ==> !Known(rows, RowId(raw, |rows|)))
  {
    hide RowId;
    var all := rows + [raw];
    assert all[|rows|] == raw && forall i :: 0 <= i < |rows| ==> all[i] == rows[i];
    if UniqueIds(all) {
      forall i, j | 0 <= i < j < |rows| && rows[i].Object? && rows[j].Object?
        ensures RowId(rows[i], i) != RowId(rows[j], j)
      {
        assert RowId(all[i], i) != RowId(all[j], j);
      }
      forall i | 0 <= i < |rows| && rows[i].Object? && raw.Object?
        ensures RowId(rows[i], i) != RowId(raw, |rows|)
      {
        assert RowId(all[i], i) != RowId(all[|rows|], |rows|);
      }
    }
  }
}

/** How one ticker's rows travel from the EDGAR client into the holdings
    table: the extractor's tuples are bound, in order, as the parameters of
    INSERT OR IGNORE. */
module Pipeline {
  import opened Wrappers
  import opened Json
  import SecEdgar
  import HoldingsDb

  /** The parameters bound for one extracted row. A `filed_at` that is
      neither text nor None is bound as its `str()` text. */
  function ToRecord(py: SecEdgar.Builtins, row: SecEdgar.Row): (r: HoldingsDb.Record)
    ensures HoldingsDb.Admit(r).Some?
    ensures HoldingsDb.RecordKey(r) == Some(HoldingsDb.Key(row.accessionNo, row.manager, row.ticker))
    ensures r.filedAt.None? <==> row.filedAt.Null?
    ensures r.accessionNo == Some(row.accessionNo) && r.manager == Some(row.manager)
    ensures r.quarter == Some(row.quarter) && r.ticker == Some(row.ticker)
    ensures r.valueK == Some(row.valueK)
    ensures row.filedAt.Str? ==> r.filedAt == Some(row.filedAt.s)
    ensures r.shares == row.shares
    ensures HoldingsDb.Bindable(r) <==>
      row.shares.None? || HoldingsDb.MinInteger <= row.shares.value <= HoldingsDb.MaxInteger
  {
    HoldingsDb.Record(
      Some(row.accessionNo), Some(row.manager), Some(row.quarter), Some(row.ticker),
      row.shares, Some(row.valueK),
      if row.filedAt.Null? then None else Some(SecEdgar.PyStr(py, row.filedAt)))
  }

  function ToRecords(py: SecEdgar.Builtins, rows: seq<SecEdgar.Row>): (rs: seq<HoldingsDb.Record>)
    ensures |rs| == |rows|
    ensures forall i :: 0 <= i < |rows| ==> rs[i] == ToRecord(py, rows[i])
  {
    seq(|rows|, i requires 0 <= i < |rows| => ToRecord(py, rows[i]))
  }

  function RowKey(row: SecEdgar.Row): HoldingsDb.Key
  {
    HoldingsDb.Key(row.accessionNo, row.manager, row.ticker)
  }

  /** After storing a batch of extracted rows the table holds a row under the
      key of every extracted row, and under no key that was neither stored
      before nor extracted. */
  lemma StoredKeys(py: SecEdgar.Builtins, t: seq<HoldingsDb.Holding>, rows: seq<SecEdgar.Row>)
    ensures HoldingsDb.KeysOf(HoldingsDb.InsertAll(t, ToRecords(py, rows)))
         == HoldingsDb.KeysOf(t) + (set i | 0 <= i < |rows| :: RowKey(rows[i]))
  {
    var rs := ToRecords(py, rows);
    HoldingsDb.InsertAllKeys(t, rs);
    var fromBatch := HoldingsDb.BatchKeys(rs);
    var fromRows := set i | 0 <= i < |rows| :: RowKey(rows[i]);
    forall k | k in fromRows ensures k in fromBatch {
      var i :| 0 <= i < |rows| && RowKey(rows[i]) == k;
      assert HoldingsDb.RecordKey(rs[i]).value == k;
    }
  }

  /** Nothing the extractor emits is turned away by NOT NULL. */
  lemma ExtractedRowsAdmitted(py: SecEdgar.Builtins, fs: seq<Value>, ticker: string)
    requires SecEdgar.Extract(py, fs, ticker).Ok?
    ensures forall i :: 0 <= i < |SecEdgar.Extract(py, fs, ticker).value| ==>
      HoldingsDb.Admit(ToRecords(py, SecEdgar.Extract(py, fs, ticker).value)[i]).Some?
  {
  }
}

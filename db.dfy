/** The `holdings` table of the local SQLite store: seven columns, five of
    them NOT NULL, and a unique index on (accession_no, manager, ticker).
    `insert_holdings` sends a batch through INSERT OR IGNORE, so a row that
    breaks NOT NULL or repeats a stored key is skipped and the row already
    stored under that key stays as it was. */
module HoldingsDb {
  import opened Wrappers
  import FirstOccurrence

  /** A row as bound to the INSERT statement; every column may be NULL. */
  datatype Record = Record(
    accessionNo: Option<string>,
    manager: Option<string>,
    quarter: Option<string>,
    ticker: Option<string>,
    shares: Option<int>,
    valueK: Option<real>,
    filedAt: Option<string>)

  /** A stored row: the NOT NULL columns hold values. */
  datatype Holding = Holding(
    accessionNo: string,
    manager: string,
    quarter: string,
    ticker: string,
    shares: Option<int>,
    valueK: real,
    filedAt: Option<string>)

  /** The columns of the unique index. The period is not one of them. */
  datatype Key = Key(accessionNo: string, manager: string, ticker: string)

  function KeyOf(h: Holding): Key
  {
    Key(h.accessionNo, h.manager, h.ticker)
  }

  /** The range of a SQLite INTEGER, a signed 64-bit integer. */
  const MinInteger: int := -0x8000_0000_0000_0000
  const MaxInteger: int := 0x7FFF_FFFF_FFFF_FFFF

  /** Whether the driver can bind the record: a Python int outside the
      signed 64-bit range makes sqlite3 raise OverflowError. The other
      parameters are text, floats or None. */
  predicate Bindable(r: Record)
  {
    r.shares.None? || MinInteger <= r.shares.value <= MaxInteger
  }

  /** The NOT NULL check: the row as it would be stored, or None when one of
      accession_no, manager, quarter, ticker or value_k is NULL. */
  function Admit(r: Record): (h: Option<Holding>)
    ensures h.Some? <==>
      r.accessionNo.Some? && r.manager.Some? && r.quarter.Some? && r.ticker.Some? && r.valueK.Some?
    ensures h.Some? ==>
      && h.value.accessionNo == r.accessionNo.value && h.value.manager == r.manager.value
      && h.value.quarter == r.quarter.value && h.value.ticker == r.ticker.value
      && h.value.shares == r.shares && h.value.valueK == r.valueK.value && h.value.filedAt == r.filedAt
  {
    if r.accessionNo.Some? && r.manager.Some? && r.quarter.Some? && r.ticker.Some? && r.valueK.Some? then
      Some(Holding(r.accessionNo.value, r.manager.value, r.quarter.value, r.ticker.value,
                   r.shares, r.valueK.value, r.filedAt))
    else None
  }

  /** The index key a record would be stored under, if it can be stored. */
  function RecordKey(r: Record): Option<Key>
  {
    match Admit(r)
    case None => None
    case Some(h) => Some(KeyOf(h))
  }

  function KeysOf(rows: seq<Holding>): set<Key>
  {
    set h | h in rows :: KeyOf(h)
  }

  ghost predicate UniqueKeys(rows: seq<Holding>)
  {
    forall i, j :: 0 <= i < j < |rows| ==> KeyOf(rows[i]) != KeyOf(rows[j])
  }

  /** One INSERT OR IGNORE. */
  function InsertOne(t: seq<Holding>, r: Record): seq<Holding>
  {
    match Admit(r)
    case None => t
    case Some(h) => if KeyOf(h) in KeysOf(t) then t else t + [h]
  }

  /** The batch, row by row, in order. */
  function InsertAll(t: seq<Holding>, batch: seq<Record>): seq<Holding>
    decreases |batch|
  {
    if batch == [] then t else InsertAll(InsertOne(t, batch[0]), batch[1..])
  }

  lemma KeysOfAppend(t: seq<Holding>, h: Holding)
    ensures KeysOf(t + [h]) == KeysOf(t) + {KeyOf(h)}
  {
    forall k | k in KeysOf(t) ensures k in KeysOf(t + [h]) {
      var g :| g in t && KeyOf(g) == k;
      assert g in t + [h];
    }
    assert h in t + [h];
  }

  lemma UniqueKeysAppend(t: seq<Holding>, h: Holding)
    requires UniqueKeys(t) && KeyOf(h) !in KeysOf(t)
    ensures UniqueKeys(t + [h])
  {
    var u := t + [h];
    forall i, j | 0 <= i < j < |u| ensures KeyOf(u[i]) != KeyOf(u[j]) {
      if j == |t| {
        assert u[i] in t;
      }
    }
  }

  /** What one INSERT OR IGNORE does to the table and to its index. */
  lemma InsertOneStep(t: seq<Holding>, r: Record)
    ensures InsertOne(t, r)
         == t + (if FirstOccurrence.Keeps(r, RecordKey, KeysOf(t)) then [Admit(r).value] else [])
    ensures KeysOf(InsertOne(t, r)) == FirstOccurrence.SeenAfter(r, RecordKey, KeysOf(t))
    ensures UniqueKeys(t) ==> UniqueKeys(InsertOne(t, r))
  {
    if FirstOccurrence.Keeps(r, RecordKey, KeysOf(t)) {
      KeysOfAppend(t, Admit(r).value);
      if UniqueKeys(t) {
        UniqueKeysAppend(t, Admit(r).value);
      }
    } else {
      assert t + [] == t;
    }
  }

  /** The stored rows a list of records turns into (the records that pass the
      NOT NULL check). */
  function Admitted(rs: seq<Record>): (hs: seq<Holding>)
    ensures |hs| <= |rs|
  {
    if rs == [] then []
    else (match Admit(rs[0]) case None => [] case Some(h) => [h]) + Admitted(rs[1..])
  }

  lemma {:induction false} AdmittedAppend(a: seq<Record>, b: seq<Record>)
    ensures Admitted(a + b) == Admitted(a) + Admitted(b)
  {
    if a == [] {
      assert a + b == b;
    } else {
      assert (a + b)[0] == a[0] && (a + b)[1..] == a[1..] + b;
      AdmittedAppend(a[1..], b);
    }
  }

  lemma {:induction false} AdmittedPointwise(rs: seq<Record>)
    requires forall p :: 0 <= p < |rs| ==> Admit(rs[p]).Some?
    ensures |Admitted(rs)| == |rs|
    ensures forall p :: 0 <= p < |rs| ==> Admitted(rs)[p] == Admit(rs[p]).value
  {
    if rs != [] {
      AdmittedPointwise(rs[1..]);
    }
  }

  /** A batch appends exactly the admitted first occurrences of the keys the
      table does not hold yet. */
  lemma {:induction false} InsertAllIsKeepFirst(t: seq<Holding>, batch: seq<Record>)
    ensures InsertAll(t, batch) == t + Admitted(FirstOccurrence.KeepFirst(batch, RecordKey, KeysOf(t)))
    decreases |batch|
  {
    if batch == [] {
      assert t + [] == t;
    } else {
      var r := batch[0];
      var seen := KeysOf(t);
      var kept := if FirstOccurrence.Keeps(r, RecordKey, seen) then [r] else [];
      var t1 := InsertOne(t, r);
      var rest := FirstOccurrence.KeepFirst(batch[1..], RecordKey, KeysOf(t1));
      InsertOneAsKeepFirst(t, r);
      InsertAllIsKeepFirst(t1, batch[1..]);
      FirstOccurrence.KeepFirstStep(batch, RecordKey, seen);
      AdmittedThen(t, kept, rest);
    }
  }

  lemma AdmittedThen(t: seq<Holding>, kept: seq<Record>, rest: seq<Record>)
    ensures (t + Admitted(kept)) + Admitted(rest) == t + Admitted(kept + rest)
  {
    AdmittedAppend(kept, rest);
  }

  /** One INSERT OR IGNORE in the terms of `KeepFirst`: it admits the record
      iff it is kept, and the keys after it are the keys seen after it. */
  lemma InsertOneAsKeepFirst(t: seq<Holding>, r: Record)
    ensures InsertOne(t, r)
         == t + Admitted(if FirstOccurrence.Keeps(r, RecordKey, KeysOf(t)) then [r] else [])
    ensures KeysOf(InsertOne(t, r)) == FirstOccurrence.SeenAfter(r, RecordKey, KeysOf(t))
  {
    InsertOneStep(t, r);
    if FirstOccurrence.Keeps(r, RecordKey, KeysOf(t)) {
      assert Admitted([r]) == [Admit(r).value] + Admitted([]);
    }
  }

  /** After any batch no two stored rows share (accession_no, manager,
      ticker). */
  lemma {:induction false} InsertAllKeepsKeysUnique(t: seq<Holding>, batch: seq<Record>)
    requires UniqueKeys(t)
    ensures UniqueKeys(InsertAll(t, batch))
    decreases |batch|
  {
    if batch != [] {
      InsertOneStep(t, batch[0]);
      InsertAllKeepsKeysUnique(InsertOne(t, batch[0]), batch[1..]);
    }
  }

  /** The whole effect of a batch: the stored rows stay where they were,
      unchanged, and after them come, in batch order, the records at the
      positions `idx`, which are exactly the positions of the records that
      pass the NOT NULL check and whose key is neither stored already nor
      taken by an earlier record of the batch. Each is stored as admitted. */
  lemma InsertAllFirstWins(t: seq<Holding>, batch: seq<Record>) returns (idx: seq<nat>)
    ensures |t| <= |InsertAll(t, batch)| && InsertAll(t, batch)[..|t|] == t
    ensures FirstOccurrence.Increasing(idx)
    ensures |idx| == |InsertAll(t, batch)| - |t|
    ensures forall p :: 0 <= p < |idx| ==>
      idx[p] < |batch| && Admit(batch[idx[p]]).Some? && InsertAll(t, batch)[|t| + p] == Admit(batch[idx[p]]).value
    ensures forall i :: 0 <= i < |batch| ==>
      (i in idx <==> FirstOccurrence.IsFirst(batch, RecordKey, KeysOf(t), i))
  {
    var kept := FirstOccurrence.KeepFirst(batch, RecordKey, KeysOf(t));
    InsertAllIsKeepFirst(t, batch);
    idx := FirstOccurrence.KeepFirstPositions(batch, RecordKey, KeysOf(t));
    FirstOccurrence.KeepFirstDistinct(batch, RecordKey, KeysOf(t));
    AdmittedPointwise(kept);
    var u := InsertAll(t, batch);
    assert u[..|t|] == t;
    forall p | 0 <= p < |idx|
      ensures idx[p] < |batch| && Admit(batch[idx[p]]).Some? && u[|t| + p] == Admit(batch[idx[p]]).value
    {
      assert kept[p] == batch[idx[p]];
      assert u[|t| + p] == Admitted(kept)[p];
    }
  }

  /** The keys of the table after a batch: the stored keys and the keys of
      every record of the batch that passes the NOT NULL check. */
  lemma {:induction false} InsertAllKeys(t: seq<Holding>, batch: seq<Record>)
    ensures KeysOf(InsertAll(t, batch)) == KeysOf(t) + BatchKeys(batch)
    decreases |batch|
  {
    if batch != [] {
      var r := batch[0];
      InsertOneStep(t, r);
      InsertAllKeys(InsertOne(t, r), batch[1..]);
      BatchKeysCons(batch);
      assert KeysOf(InsertOne(t, r)) == KeysOf(t) + HeadKey(r);
    }
  }

  /** The keys of the storable records of a batch. */
  function BatchKeys(batch: seq<Record>): set<Key>
  {
    set i | 0 <= i < |batch| && RecordKey(batch[i]).Some? :: RecordKey(batch[i]).value
  }

  function HeadKey(r: Record): set<Key>
  {
    if RecordKey(r).Some? then {RecordKey(r).value} else {}
  }

  lemma BatchKeysCons(batch: seq<Record>)
    requires batch != []
    ensures BatchKeys(batch) == HeadKey(batch[0]) + BatchKeys(batch[1..])
  {
    var all, rest := BatchKeys(batch), BatchKeys(batch[1..]);
    forall k | k in all ensures k in HeadKey(batch[0]) + rest {
      var i :| 0 <= i < |batch| && RecordKey(batch[i]).Some? && RecordKey(batch[i]).value == k;
      if i > 0 {
        assert batch[i] == batch[1..][i - 1];
      }
    }
    forall k | k in rest ensures k in all {
      var i :| 0 <= i < |batch[1..]| && RecordKey(batch[1..][i]).Some? && RecordKey(batch[1..][i]).value == k;
      assert batch[1..][i] == batch[i + 1];
    }
  }

  /** A batch every record of which is inadmissible or already stored changes
      nothing. */
  lemma {:induction false} InsertAllNothingNew(t: seq<Holding>, batch: seq<Record>)
    requires forall i :: 0 <= i < |batch| ==> RecordKey(batch[i]).None? || RecordKey(batch[i]).value in KeysOf(t)
    ensures InsertAll(t, batch) == t
  {
    if batch != [] {
      assert InsertOne(t, batch[0]) == t;
      InsertAllNothingNew(t, batch[1..]);
    }
  }

  /** Sending the same batch twice stores what sending it once does. */
  lemma InsertAllIdempotent(t: seq<Holding>, batch: seq<Record>)
    ensures InsertAll(InsertAll(t, batch), batch) == InsertAll(t, batch)
  {
    InsertAllKeys(t, batch);
    var u := InsertAll(t, batch);
    forall i | 0 <= i < |batch| && RecordKey(batch[i]).Some?
      ensures RecordKey(batch[i]).value in KeysOf(u)
    {
    }
    InsertAllNothingNew(u, batch);
  }

  /** An amendment (a second filing of the same period, under its own
      accession number) is stored beside the original: the period plays no
      part in the unique key. */
  lemma AmendmentStoredBeside(t: seq<Holding>, original: Record, amendment: Record)
    requires Admit(original).Some? && Admit(amendment).Some?
    requires RecordKey(original).value !in KeysOf(t) && RecordKey(amendment).value !in KeysOf(t)
    requires original.accessionNo != amendment.accessionNo
    ensures InsertAll(t, [original, amendment]) == t + [Admit(original).value, Admit(amendment).value]
  {
    var h, g := Admit(original).value, Admit(amendment).value;
    KeysOfAppend(t, h);
    assert InsertOne(t, original) == t + [h];
    assert KeyOf(g) != KeyOf(h);
    assert InsertOne(t + [h], amendment) == (t + [h]) + [g];
    assert [original, amendment][0] == original && [original, amendment][1..] == [amendment];
    assert InsertAll(t, [original, amendment]) == InsertAll(t + [h], [amendment]);
    assert [amendment][0] == amendment && [amendment][1..] == [];
    assert InsertAll(t + [h], [amendment]) == (t + [h]) + [g];
    assert (t + [h]) + [g] == t + [h, g];
  }

  /** The table and its unique index. */
  class HoldingsTable {
    var rows: seq<Holding>
    var index: set<Key>

    ghost predicate Valid()
      reads this
    {
      UniqueKeys(rows) && index == KeysOf(rows)
    }

    /** The table as created, empty. */
    constructor()
      ensures Valid() && rows == []
    {
      rows := [];
      index := {};
    }

    /** One INSERT OR IGNORE: skip a row that breaks NOT NULL or whose key is
        in the index, otherwise append it and index its key. */
    method InsertOrIgnore(r: Record)
      requires Valid()
      modifies this
      ensures Valid()
      ensures rows == InsertOne(old(rows), r)
    {
      match Admit(r)
      case None =>
      case Some(h) =>
        var k := KeyOf(h);
        if k !in index {
          KeysOfAppend(rows, h);
          UniqueKeysAppend(rows, h);
          rows := rows + [h];
          index := index + {k};
        }
    }

    /** `insert_holdings`: nothing for an empty batch, otherwise each row in
        turn. A row the driver cannot bind raises before `commit`, so the
        rows of the batch already executed are rolled back and the table is
        as it was; `committed` is false then. */
    method InsertHoldings(batch: seq<Record>) returns (committed: bool)
      requires Valid()
      modifies this
      ensures Valid()
      ensures committed <==> forall i :: 0 <= i < |batch| ==> Bindable(batch[i])
      ensures committed ==> rows == InsertAll(old(rows), batch)
      ensures !committed ==> rows == old(rows) && index == old(index)
    {
      if batch == [] {
        return true;
      }
      var savedRows, savedIndex := rows, index;
      var i := 0;
      while i < |batch|
        invariant 0 <= i <= |batch|
        invariant Valid()
        invariant InsertAll(savedRows, batch) == InsertAll(rows, batch[i..])
        invariant forall j :: 0 <= j < i ==> Bindable(batch[j])
      {
        if !Bindable(batch[i]) {
          rows, index := savedRows, savedIndex;
          return false;
        }
        assert batch[i..][1..] == batch[i + 1..];
        InsertOrIgnore(batch[i]);
        i := i + 1;
      }
      return true;
    }
  }
}

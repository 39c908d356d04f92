/** The EDGAR client's pure half: tolerant number parsing, the accession-number
    rule, the filing-level deduplication loop, and the extraction of one
    ticker's holding rows from a list of 13F-HR filings. The HTTP request that
    produces the filings is not part of this module: the filings arrive as
    decoded JSON values. */
module SecEdgar {
  import opened Wrappers
  import opened Json
  import Text
  import FirstOccurrence

  /** Python builtins the client relies on whose exact behaviour is not
      modelled: `float()` applied to a string (None where it raises), and
      `str()` applied to a value that is not a string. */
  datatype Builtins = Builtins(floatOfText: string -> Option<real>, strOf: Value -> string)

  /** The exceptions a malformed response makes the client raise. */
  datatype Failure = AttributeError | TypeError

  // ---------------------------------------------------------------------------
  // _safe_float and _safe_int

  /** `_safe_float(x)`: None for None, and None wherever `float(x)` raises
      (lists and dicts, strings the parser rejects). */
  function SafeFloat(py: Builtins, x: Value): (r: Option<real>)
    ensures x.Null? || x.Array? || x.Object? ==> r.None?
    ensures Numeric(x) ==> r == Some(NumericValue(x))
    ensures x.Str? ==> r == py.floatOfText(x.s)
  {
    match x
    case Null => None
    case Bool(_) => Some(NumericValue(x))
    case Int(_) => Some(NumericValue(x))
    case Float(_) => Some(NumericValue(x))
    case Str(s) => py.floatOfText(s)
    case Array(_) => None
    case Object(_) => None
  }

  /** `int()` of a float: truncation toward zero. */
  function Trunc(x: real): (n: int)
    ensures 0.0 <= x ==> 0 <= n && n as real <= x < n as real + 1.0
    ensures x < 0.0 ==> n <= 0 && n as real - 1.0 < x <= n as real
  {
    if x >= 0.0 then x.Floor else -((-x).Floor)
  }

  /** `_safe_int(x)` is `_safe_float(x)` truncated toward zero: it fails
      exactly where `_safe_float` fails. What truncation means is stated by
      `Trunc`'s own contract; this one only composes the two. */
  function SafeInt(py: Builtins, x: Value): (r: Option<int>)
    ensures r.Some? <==> SafeFloat(py, x).Some?
    ensures r.Some? ==> r.value == Trunc(SafeFloat(py, x).value)
  {
    match SafeFloat(py, x)
    case None => None
    case Some(f) => Some(Trunc(f))
  }

  // ---------------------------------------------------------------------------
  // The accession number, shared by the dedup loop and the extractor

  /** `f.get("accessionNo") or f.get("accessionNumber") or f.get("id") or f.get("linkToHtml")` */
  function AccessionOf(f: map<string, Value>): (acc: Value)
    ensures Truthy(Get(f, "accessionNo")) ==> acc == Get(f, "accessionNo")
    ensures !Truthy(Get(f, "accessionNo")) && Truthy(Get(f, "accessionNumber")) ==> acc == Get(f, "accessionNumber")
    ensures !Truthy(Get(f, "accessionNo")) && !Truthy(Get(f, "accessionNumber")) && Truthy(Get(f, "id"))
      ==> acc == Get(f, "id")
    ensures !Truthy(Get(f, "accessionNo")) && !Truthy(Get(f, "accessionNumber")) && !Truthy(Get(f, "id"))
      ==> acc == Get(f, "linkToHtml")
    ensures Truthy(acc) <==>
      Truthy(Get(f, "accessionNo")) || Truthy(Get(f, "accessionNumber")) || Truthy(Get(f, "id")) || Truthy(Get(f, "linkToHtml"))
  {
    Or(Or(Or(Get(f, "accessionNo"), Get(f, "accessionNumber")), Get(f, "id")), Get(f, "linkToHtml"))
  }

  // ---------------------------------------------------------------------------
  // Filing-level deduplication (the loop at the end of get_13f_filings_for_ticker)

  /** The set element the loop files `f` under; None when `f` has no
      accession number and is skipped. */
  function FilingKey(f: Value): Option<HashKey>
  {
    if f.Object? && Truthy(AccessionOf(f.fields)) then Hash(AccessionOf(f.fields)) else None
  }

  /** Where the loop raises on `f`: `f.get` on a non-dict, or an accession
      number that is a list or dict and cannot be looked up in `seen`. */
  function DedupFault(f: Value): (e: Option<Failure>)
  {
    if !f.Object? then Some(AttributeError)
    else if Truthy(AccessionOf(f.fields)) && Hash(AccessionOf(f.fields)).None? then Some(TypeError)
    else None
  }

  /** The loop run over `fs` when the keys in `seen` are already taken. */
  function DedupFrom(fs: seq<Value>, seen: set<HashKey>): Result<seq<Value>, Failure>
  {
    if fs == [] then Ok([])
    else if !fs[0].Object? then Err(AttributeError)
    else
      var acc := AccessionOf(fs[0].fields);
      if !Truthy(acc) then DedupFrom(fs[1..], seen)
      else match Hash(acc)
        case None => Err(TypeError)
        case Some(k) =>
          if k in seen then DedupFrom(fs[1..], seen)
          else Prepend([fs[0]], DedupFrom(fs[1..], seen + {k}))
  }

  function Dedup(fs: seq<Value>): Result<seq<Value>, Failure>
  {
    DedupFrom(fs, {})
  }

  /** The loop itself, with its `seen` set and `unique` list. */
  method DedupFilings(filings: seq<Value>) returns (r: Result<seq<Value>, Failure>)
    ensures r == Dedup(filings)
  {
    var seen: set<HashKey> := {};
    var unique: seq<Value> := [];
    var i := 0;
    assert filings[i..] == filings;
    assert DedupFrom(filings, seen).Ok? ==> DedupFrom(filings, seen).value == [] + DedupFrom(filings, seen).value;
    while i < |filings|
      invariant 0 <= i <= |filings|
      invariant Dedup(filings) == Prepend(unique, DedupFrom(filings[i..], seen))
    {
      var f := filings[i];
      assert filings[i..][1..] == filings[i + 1..];
      if !f.Object? {
        return Err(AttributeError);
      }
      var acc := AccessionOf(f.fields);
      if !Truthy(acc) {
        i := i + 1;
        continue;
      }
      var key := Hash(acc);
      if key.None? {
        return Err(TypeError);
      }
      if key.value in seen {
        i := i + 1;
        continue;
      }
      ConcatAssoc(Ok(unique), Ok([f]), DedupFrom(filings[i + 1..], seen + {key.value}));
      seen := seen + {key.value};
      unique := unique + [f];
      i := i + 1;
    }
    assert filings[i..] == [] && unique + [] == unique;
    r := Ok(unique);
  }

  /** The loop raises exactly when some filing is not a dict or has an
      unhashable accession number. */
  lemma {:induction false} DedupFailsIff(fs: seq<Value>, seen: set<HashKey>)
    ensures DedupFrom(fs, seen).Err? <==> exists i :: 0 <= i < |fs| && DedupFault(fs[i]).Some?
  {
    if fs != [] {
      var seen' := if FilingKey(fs[0]).Some? && FilingKey(fs[0]).value !in seen
                   then seen + {FilingKey(fs[0]).value} else seen;
      DedupFailsIff(fs[1..], seen');
      if DedupFault(fs[0]).None? {
        DedupFailsIff(fs[1..], seen);
      }
      assert forall i :: 1 <= i < |fs| ==> fs[i] == fs[1..][i - 1];
    }
  }

  /** When the loop does not raise, it keeps the first filing of each
      accession number and drops the filings without one. */
  lemma {:induction false} DedupIsKeepFirst(fs: seq<Value>, seen: set<HashKey>)
    requires DedupFrom(fs, seen).Ok?
    ensures DedupFrom(fs, seen).value == FirstOccurrence.KeepFirst(fs, FilingKey, seen)
  {
    if fs != [] {
      var k := FilingKey(fs[0]);
      if k.Some? && k.value !in seen {
        DedupIsKeepFirst(fs[1..], seen + {k.value});
      } else {
        DedupIsKeepFirst(fs[1..], seen);
      }
    }
  }

  /** The deduplicated list is the subsequence of the input made of the first
      filing of every accession number: order is kept (`idx` increases), no
      two kept filings share a key, and every keyed filing's key survives. */
  lemma DedupKeepsFirstOccurrences(fs: seq<Value>) returns (idx: seq<nat>)
    requires Dedup(fs).Ok?
    ensures FirstOccurrence.Increasing(idx)
    ensures FirstOccurrence.Picks(fs, Dedup(fs).value, idx)
    ensures FirstOccurrence.FirstPositions(fs, FilingKey, {}, idx)
    ensures forall p :: 0 <= p < |Dedup(fs).value| ==> FilingKey(Dedup(fs).value[p]).Some?
    ensures forall p, q :: 0 <= p < q < |Dedup(fs).value| ==>
      FilingKey(Dedup(fs).value[p]) != FilingKey(Dedup(fs).value[q])
    ensures forall i :: 0 <= i < |fs| && FilingKey(fs[i]).Some? ==>
      exists p :: 0 <= p < |Dedup(fs).value| && FilingKey(Dedup(fs).value[p]) == FilingKey(fs[i])
  {
    DedupIsKeepFirst(fs, {});
    idx := FirstOccurrence.KeepFirstPositions(fs, FilingKey, {});
    FirstOccurrence.KeepFirstDistinct(fs, FilingKey, {});
    forall i | 0 <= i < |fs| && FilingKey(fs[i]).Some?
      ensures exists p :: 0 <= p < |Dedup(fs).value| && FilingKey(Dedup(fs).value[p]) == FilingKey(fs[i])
    {
      FirstOccurrence.KeepFirstCovers(fs, FilingKey, {}, i);
    }
  }

  // ---------------------------------------------------------------------------
  // extract_holdings

  /** One row ready for the holdings table:
      (accession_no, manager, quarter, ticker, shares, value_k, filed_at). */
  datatype Row = Row(
    accessionNo: string,
    manager: string,
    quarter: string,
    ticker: string,
    shares: Option<int>,
    valueK: real,
    filedAt: Value)

  /** The filing-level fields every row of a filing copies. */
  datatype Header = Header(accession: Value, manager: Value, quarter: Value, filedAt: Value)

  function HeaderOf(f: map<string, Value>): Header
  {
    Header(AccessionOf(f), Get(f, "companyName"), Get(f, "periodOfReport"), Get(f, "filedAt"))
  }

  /** A filing whose holdings the extractor walks: it has an accession
      number, a manager, a period and a non-empty `holdings` field. */
  predicate Walked(f: Value)
  {
    && f.Object?
    && var hd := HeaderOf(f.fields);
    && Truthy(hd.accession) && Truthy(hd.manager) && Truthy(hd.quarter)
    && Truthy(Get(f.fields, "holdings"))
  }

  /** `str(v)` */
  function PyStr(py: Builtins, v: Value): string
  {
    if v.Str? then v.s else py.strOf(v)
  }

  /** `_safe_int(h.get("shares") or h.get("sshPrnamt"))` */
  function SharesOf(py: Builtins, h: map<string, Value>): Option<int>
  {
    SafeInt(py, Or(Get(h, "shares"), Get(h, "sshPrnamt")))
  }

  /** `_safe_float(h.get("value") or h.get("marketValue") or h.get("valueK"))` */
  function ValueKOf(py: Builtins, h: map<string, Value>): Option<real>
  {
    SafeFloat(py, Or(Or(Get(h, "value"), Get(h, "marketValue")), Get(h, "valueK")))
  }

  /** `(h.get("ticker") or "").upper()`, which raises AttributeError when the
      ticker is truthy but not a string. */
  function HoldingTicker(h: map<string, Value>): (r: Result<string, Failure>)
    ensures r.Err? <==> Truthy(Get(h, "ticker")) && !Get(h, "ticker").Str?
    ensures !Truthy(Get(h, "ticker")) ==> r == Ok("")
    ensures Truthy(Get(h, "ticker")) && Get(h, "ticker").Str? ==> r == Ok(Text.Upper(Get(h, "ticker").s))
  {
    var t := Get(h, "ticker");
    if !Truthy(t) then Ok("")
    else if t.Str? then Ok(Text.Upper(t.s))
    else Err(AttributeError)
  }

  /** A holding is emitted: it is a dict whose ticker upper-cases to the
      requested one, with a usable value. */
  predicate Selected(py: Builtins, ticker: string, h: Value)
  {
    h.Object? && HoldingTicker(h.fields) == Ok(Text.Upper(ticker)) && ValueKOf(py, h.fields).Some?
  }

  function RowFor(py: Builtins, hd: Header, ticker: string, h: map<string, Value>, valueK: real): Row
  {
    Row(PyStr(py, hd.accession), PyStr(py, hd.manager), PyStr(py, hd.quarter),
        Text.Upper(ticker), SharesOf(py, h), valueK, hd.filedAt)
  }

  /** The rows one holding contributes: none, one, or an exception. */
  function HoldingRow(py: Builtins, hd: Header, ticker: string, h: Value): Result<seq<Row>, Failure>
  {
    if !h.Object? then Err(AttributeError)
    else match HoldingTicker(h.fields)
      case Err(e) => Err(e)
      case Ok(t) =>
        if t != Text.Upper(ticker) then Ok([])
        else match ValueKOf(py, h.fields)
          case None => Ok([])
          case Some(v) => Ok([RowFor(py, hd, ticker, h.fields, v)])
  }

  function HoldingRows(py: Builtins, hd: Header, ticker: string, hs: seq<Value>): Result<seq<Row>, Failure>
  {
    if hs == [] then Ok([])
    else Concat(HoldingRow(py, hd, ticker, hs[0]), HoldingRows(py, hd, ticker, hs[1..]))
  }

  /** The rows one filing contributes. A truthy `holdings` that is not a list
      makes the loop raise: iterating a dict or a string yields strings, which
      have no `get`; a number is not iterable. */
  function FilingRows(py: Builtins, f: Value, ticker: string): Result<seq<Row>, Failure>
  {
    if !f.Object? then Err(AttributeError)
    else if !Walked(f) then Ok([])
    else match Get(f.fields, "holdings")
      case Array(items) => HoldingRows(py, HeaderOf(f.fields), ticker, items)
      case Object(_) => Err(AttributeError)
      case Str(_) => Err(AttributeError)
      case Bool(_) => Err(TypeError)
      case Int(_) => Err(TypeError)
      case Float(_) => Err(TypeError)
      case Null => Ok([])
  }

  /** `extract_holdings(filings, ticker)` */
  function Extract(py: Builtins, fs: seq<Value>, ticker: string): Result<seq<Row>, Failure>
  {
    if fs == [] then Ok([])
    else Concat(FilingRows(py, fs[0], ticker), Extract(py, fs[1..], ticker))
  }

  /** The extractor's outer loop over the filings, appending to `rows`. */
  method ExtractHoldings(py: Builtins, filings: seq<Value>, ticker: string) returns (r: Result<seq<Row>, Failure>)
    ensures r == Extract(py, filings, ticker)
  {
    var rows: seq<Row> := [];
    var i := 0;
    assert filings[i..] == filings;
    assert Extract(py, filings, ticker).Ok? ==> Extract(py, filings, ticker).value == [] + Extract(py, filings, ticker).value;
    while i < |filings|
      invariant 0 <= i <= |filings|
      invariant Extract(py, filings, ticker) == Prepend(rows, Extract(py, filings[i..], ticker))
    {
      ghost var later := Extract(py, filings[i + 1..], ticker);
      assert filings[i..][1..] == filings[i + 1..];
      ConcatAssoc(Ok(rows), FilingRows(py, filings[i], ticker), later);
      var walked := AppendFilingRows(py, filings[i], ticker, rows);
      if walked.Err? {
        return walked;
      }
      rows := walked.value;
      i := i + 1;
    }
    assert filings[i..] == [] && rows + [] == rows;
    r := Ok(rows);
  }

  /** One pass of the outer loop: the checks on a filing, then its holdings. */
  method AppendFilingRows(py: Builtins, f: Value, ticker: string, rows: seq<Row>) returns (r: Result<seq<Row>, Failure>)
    ensures r == Prepend(rows, FilingRows(py, f, ticker))
  {
    if !f.Object? {
      return Err(AttributeError);
    }
    var hd := HeaderOf(f.fields);
    if !Truthy(hd.accession) || !Truthy(hd.manager) || !Truthy(hd.quarter) {
      assert rows + [] == rows;
      return Ok(rows);
    }
    var holdings := Get(f.fields, "holdings");
    if !Truthy(holdings) {
      assert rows + [] == rows;
      return Ok(rows);
    }
    if !holdings.Array? {
      return Err(if holdings.Object? || holdings.Str? then AttributeError else TypeError);
    }
    r := AppendHoldingRows(py, hd, ticker, holdings.items, rows);
  }

  /** The extractor's inner loop over one filing's holdings, appending to
      `rows`. */
  method AppendHoldingRows(py: Builtins, hd: Header, ticker: string, items: seq<Value>, rows: seq<Row>)
    returns (r: Result<seq<Row>, Failure>)
    ensures r == Prepend(rows, HoldingRows(py, hd, ticker, items))
  {
    var acc := rows;
    var want := Text.Upper(ticker);
    var j := 0;
    assert items[j..] == items;
    while j < |items|
      invariant 0 <= j <= |items|
      invariant Prepend(rows, HoldingRows(py, hd, ticker, items)) == Prepend(acc, HoldingRows(py, hd, ticker, items[j..]))
    {
      var h := items[j];
      assert items[j..][1..] == items[j + 1..];
      ghost var later := HoldingRows(py, hd, ticker, items[j + 1..]);
      if !h.Object? {
        return Err(AttributeError);
      }
      var t := Get(h.fields, "ticker");
      var text := "";
      if Truthy(t) {
        if !t.Str? {
          return Err(AttributeError);
        }
        text := t.s;
      }
      if Text.Upper(text) != want {
        j := j + 1;
        continue;
      }
      var shares := SharesOf(py, h.fields);
      var valueK := ValueKOf(py, h.fields);
      if valueK.None? {
        j := j + 1;
        continue;
      }
      var row := Row(PyStr(py, hd.accession), PyStr(py, hd.manager), PyStr(py, hd.quarter),
                     want, shares, valueK.value, hd.filedAt);
      ConcatAssoc(Ok(acc), Ok([row]), later);
      acc := acc + [row];
      j := j + 1;
    }
    assert items[j..] == [] && acc + [] == acc;
    r := Ok(acc);
  }

  // ---------------------------------------------------------------------------
  // What extract_holdings promises

  /** A truthy `shares` is parsed on its own: `sshPrnamt` is not consulted,
      even when `shares` does not parse. */
  lemma SharesWhenTruthy(py: Builtins, h: map<string, Value>)
    requires Truthy(Get(h, "shares"))
    ensures SharesOf(py, h) == SafeInt(py, Get(h, "shares"))
  {
  }

  /** A truthy `value` is parsed on its own. When it does not parse (text
      that is no number, a non-empty list or dict) the holding has no value
      and is skipped, whatever `marketValue` and `valueK` hold. */
  lemma ValueKWhenTruthy(py: Builtins, h: map<string, Value>)
    requires Truthy(Get(h, "value"))
    ensures ValueKOf(py, h) == SafeFloat(py, Get(h, "value"))
    ensures Get(h, "value").Array? || Get(h, "value").Object? ==> ValueKOf(py, h).None?
  {
  }

  /** `marketValue` is consulted only when `value` is falsy, and then decides
      on its own when it is truthy. */
  lemma ValueKFromMarketValue(py: Builtins, h: map<string, Value>)
    requires !Truthy(Get(h, "value")) && Truthy(Get(h, "marketValue"))
    ensures ValueKOf(py, h) == SafeFloat(py, Get(h, "marketValue"))
  {
  }

  /** When both `shares` and `sshPrnamt` are falsy, the `or` yields
      `sshPrnamt` itself: absent or None gives no share count, but a zero
      (or False) gives a share count of 0. A `shares` of 0 therefore falls
      through to `sshPrnamt`. */
  lemma SharesWhenFalsy(py: Builtins, h: map<string, Value>)
    requires !Truthy(Get(h, "shares"))
    ensures SharesOf(py, h) == SafeInt(py, Get(h, "sshPrnamt"))
    ensures !Truthy(Get(h, "sshPrnamt")) && Numeric(Get(h, "sshPrnamt")) ==> SharesOf(py, h) == Some(0)
    ensures Get(h, "sshPrnamt") == Null ==> SharesOf(py, h) == None
  {
  }

  /** When `value`, `marketValue` and `valueK` are all falsy the `or` yields
      `valueK` itself: a zero there is kept as 0.0, while an absent value, an
      empty string, list or dict gives no value and the holding is skipped. */
  lemma ValueKWhenFalsy(py: Builtins, h: map<string, Value>)
    requires !Truthy(Get(h, "value")) && !Truthy(Get(h, "marketValue")) && !Truthy(Get(h, "valueK"))
    requires py.floatOfText("") == None
    ensures Numeric(Get(h, "valueK")) ==> ValueKOf(py, h) == Some(0.0)
    ensures !Numeric(Get(h, "valueK")) ==> ValueKOf(py, h) == None
  {
  }

  /** A filing without accession number, manager, period or holdings
      contributes no rows (and raises nothing) once it is a dict. */
  lemma FilingSkipped(py: Builtins, f: Value, ticker: string)
    requires f.Object? && !Walked(f)
    ensures FilingRows(py, f, ticker) == Ok([])
  {
  }

  /** Conversely, a filing that contributes a row has all of them, and its
      `holdings` is a list. */
  lemma FilingContributes(py: Builtins, f: Value, ticker: string)
    requires FilingRows(py, f, ticker).Ok? && FilingRows(py, f, ticker).value != []
    ensures Walked(f) && Get(f.fields, "holdings").Array?
    ensures FilingRows(py, f, ticker) == HoldingRows(py, HeaderOf(f.fields), ticker, Get(f.fields, "holdings").items)
  {
  }

  predicate WellFormedHolding(h: Value)
  {
    h.Object? && HoldingTicker(h.fields).Ok?
  }

  /** A filing the extractor gets through without raising. */
  predicate WellFormedFiling(f: Value)
  {
    && f.Object?
    && (Walked(f) ==>
          && Get(f.fields, "holdings").Array?
          && forall j :: 0 <= j < |Get(f.fields, "holdings").items| ==>
               WellFormedHolding(Get(f.fields, "holdings").items[j]))
  }

  lemma {:induction false} HoldingRowsFailIff(py: Builtins, hd: Header, ticker: string, hs: seq<Value>)
    ensures HoldingRows(py, hd, ticker, hs).Err? <==> exists j :: 0 <= j < |hs| && !WellFormedHolding(hs[j])
  {
    if hs != [] {
      HoldingRowsFailIff(py, hd, ticker, hs[1..]);
      assert forall j :: 1 <= j < |hs| ==> hs[j] == hs[1..][j - 1];
    }
  }

  /** extract_holdings raises exactly when some filing is malformed: not a
      dict, or walked with holdings that are not a list of dicts with string
      (or falsy) tickers. */
  lemma {:induction false} ExtractFailsIff(py: Builtins, fs: seq<Value>, ticker: string)
    ensures Extract(py, fs, ticker).Err? <==> exists i :: 0 <= i < |fs| && !WellFormedFiling(fs[i])
  {
    if fs != [] {
      ExtractFailsIff(py, fs[1..], ticker);
      assert forall i :: 1 <= i < |fs| ==> fs[i] == fs[1..][i - 1];
      if fs[0].Object? && Walked(fs[0]) && Get(fs[0].fields, "holdings").Array? {
        HoldingRowsFailIff(py, HeaderOf(fs[0].fields), ticker, Get(fs[0].fields, "holdings").items);
      }
    }
  }

  /** Rows come out in filing order: the rows of a concatenation of filing
      lists are the rows of the first list followed by those of the second. */
  lemma {:induction false} ExtractAppend(py: Builtins, a: seq<Value>, b: seq<Value>, ticker: string)
    ensures Extract(py, a + b, ticker) == Concat(Extract(py, a, ticker), Extract(py, b, ticker))
  {
    if a == [] {
      assert a + b == b;
    } else {
      assert (a + b)[0] == a[0] && (a + b)[1..] == a[1..] + b;
      ExtractAppend(py, a[1..], b, ticker);
      ConcatAssoc(FilingRows(py, a[0], ticker), Extract(py, a[1..], ticker), Extract(py, b, ticker));
    }
  }

  /** Within a filing, rows come out in holding order. */
  lemma {:induction false} HoldingRowsAppend(py: Builtins, hd: Header, ticker: string, a: seq<Value>, b: seq<Value>)
    ensures HoldingRows(py, hd, ticker, a + b)
         == Concat(HoldingRows(py, hd, ticker, a), HoldingRows(py, hd, ticker, b))
  {
    if a == [] {
      assert a + b == b;
    } else {
      assert (a + b)[0] == a[0] && (a + b)[1..] == a[1..] + b;
      HoldingRowsAppend(py, hd, ticker, a[1..], b);
      ConcatAssoc(HoldingRow(py, hd, ticker, a[0]), HoldingRows(py, hd, ticker, a[1..]), HoldingRows(py, hd, ticker, b));
    }
  }

  /** The number of holdings listed across the filings. */
  function HoldingCount(fs: seq<Value>): nat
  {
    if fs == [] then 0
    else
      var f := fs[0];
      (if f.Object? && Get(f.fields, "holdings").Array? then |Get(f.fields, "holdings").items| else 0)
        + HoldingCount(fs[1..])
  }

  lemma {:induction false} HoldingRowsAtMostOnePerHolding(py: Builtins, hd: Header, ticker: string, hs: seq<Value>)
    requires HoldingRows(py, hd, ticker, hs).Ok?
    ensures |HoldingRows(py, hd, ticker, hs).value| <= |hs|
  {
    if hs != [] {
      HoldingRowsAtMostOnePerHolding(py, hd, ticker, hs[1..]);
    }
  }

  /** At most one row per listed holding. */
  lemma {:induction false} ExtractCountBound(py: Builtins, fs: seq<Value>, ticker: string)
    requires Extract(py, fs, ticker).Ok?
    ensures |Extract(py, fs, ticker).value| <= HoldingCount(fs)
  {
    if fs != [] {
      ExtractCountBound(py, fs[1..], ticker);
      var f := fs[0];
      if f.Object? && Walked(f) && Get(f.fields, "holdings").Array? {
        HoldingRowsAtMostOnePerHolding(py, HeaderOf(f.fields), ticker, Get(f.fields, "holdings").items);
      }
    }
  }

  lemma {:induction false} HoldingRowOrigin(py: Builtins, hd: Header, ticker: string, hs: seq<Value>, k: nat)
    returns (j: nat)
    requires HoldingRows(py, hd, ticker, hs).Ok? && k < |HoldingRows(py, hd, ticker, hs).value|
    ensures j < |hs| && Selected(py, ticker, hs[j])
    ensures HoldingRows(py, hd, ticker, hs).value[k]
         == RowFor(py, hd, ticker, hs[j].fields, ValueKOf(py, hs[j].fields).value)
  {
    var head := HoldingRow(py, hd, ticker, hs[0]);
    var rest := HoldingRows(py, hd, ticker, hs[1..]);
    var all := HoldingRows(py, hd, ticker, hs).value;
    assert head.Ok? && rest.Ok? && all == head.value + rest.value;
    if k < |head.value| {
      j := 0;
      HoldingRowShape(py, hd, ticker, hs[0]);
      assert all[k] == head.value[0];
    } else {
      var j' := HoldingRowOrigin(py, hd, ticker, hs[1..], k - |head.value|);
      j := j' + 1;
      assert hs[j] == hs[1..][j'];
      assert all[k] == rest.value[k - |head.value|];
    }
  }

  /** A holding that yields a row is selected, and yields exactly its row. */
  lemma HoldingRowShape(py: Builtins, hd: Header, ticker: string, h: Value)
    requires HoldingRow(py, hd, ticker, h).Ok? && HoldingRow(py, hd, ticker, h).value != []
    ensures Selected(py, ticker, h)
    ensures HoldingRow(py, hd, ticker, h).value == [RowFor(py, hd, ticker, h.fields, ValueKOf(py, h.fields).value)]
  {
  }

  /** A holding that does not raise yields its row iff it is selected. */
  lemma HoldingRowSelected(py: Builtins, hd: Header, ticker: string, h: Value)
    requires HoldingRow(py, hd, ticker, h).Ok?
    ensures Selected(py, ticker, h) ==>
      HoldingRow(py, hd, ticker, h).value == [RowFor(py, hd, ticker, h.fields, ValueKOf(py, h.fields).value)]
    ensures !Selected(py, ticker, h) ==> HoldingRow(py, hd, ticker, h).value == []
  {
  }

  /** `rows` are the rows of the holdings of `hs` at the positions `idx`. */
  ghost predicate RowsAt(py: Builtins, hd: Header, ticker: string, hs: seq<Value>, rows: seq<Row>, idx: seq<nat>)
  {
    && |idx| == |rows|
    && forall p :: 0 <= p < |idx| ==>
         && idx[p] < |hs| && Selected(py, ticker, hs[idx[p]])
         && rows[p] == RowFor(py, hd, ticker, hs[idx[p]].fields, ValueKOf(py, hs[idx[p]].fields).value)
  }

  /** `idx` holds exactly the positions of the selected holdings. */
  ghost predicate SelectedAt(py: Builtins, ticker: string, hs: seq<Value>, idx: seq<nat>)
  {
    forall j :: 0 <= j < |hs| ==> (j in idx <==> Selected(py, ticker, hs[j]))
  }

  /** Within a filing that raises nothing, the rows are exactly those of its
      selected holdings, one each, in holding order: `idx` lists the positions
      of all selected holdings, increasing, and row p is the row of holding
      `idx[p]`. */
  lemma {:induction false} HoldingRowsPositions(py: Builtins, hd: Header, ticker: string, hs: seq<Value>)
    returns (idx: seq<nat>)
    requires HoldingRows(py, hd, ticker, hs).Ok?
    ensures FirstOccurrence.Increasing(idx)
    ensures |idx| == |HoldingRows(py, hd, ticker, hs).value|
    ensures forall p :: 0 <= p < |idx| ==>
      && idx[p] < |hs| && Selected(py, ticker, hs[idx[p]])
      && HoldingRows(py, hd, ticker, hs).value[p]
         == RowFor(py, hd, ticker, hs[idx[p]].fields, ValueKOf(py, hs[idx[p]].fields).value)
    ensures forall j :: 0 <= j < |hs| ==> (j in idx <==> Selected(py, ticker, hs[j]))
  {
    if hs == [] {
      idx := [];
    } else {
      var rest := HoldingRowsPositions(py, hd, ticker, hs[1..]);
      FirstOccurrence.ShiftFacts(rest);
      HoldingRowSelected(py, hd, ticker, hs[0]);
      idx := HoldingRowsPositionsStep(py, hd, ticker, hs, rest);
      assert RowsAt(py, hd, ticker, hs, HoldingRows(py, hd, ticker, hs).value, idx);
    }
  }

  lemma HoldingRowsPositionsStep(py: Builtins, hd: Header, ticker: string, hs: seq<Value>, rest: seq<nat>)
    returns (idx: seq<nat>)
    requires hs != [] && HoldingRows(py, hd, ticker, hs).Ok?
    requires HoldingRow(py, hd, ticker, hs[0]).value == (if Selected(py, ticker, hs[0])
      then [RowFor(py, hd, ticker, hs[0].fields, ValueKOf(py, hs[0].fields).value)] else [])
    requires FirstOccurrence.Increasing(FirstOccurrence.Shift(rest))
    requires FirstOccurrence.Increasing([0] + FirstOccurrence.Shift(rest))
    requires forall i: nat :: i in FirstOccurrence.Shift(rest) <==> i >= 1 && i - 1 in rest
    requires RowsAt(py, hd, ticker, hs[1..], HoldingRows(py, hd, ticker, hs[1..]).value, rest)
    requires SelectedAt(py, ticker, hs[1..], rest)
    ensures FirstOccurrence.Increasing(idx)
    ensures RowsAt(py, hd, ticker, hs, HoldingRows(py, hd, ticker, hs).value, idx)
    ensures SelectedAt(py, ticker, hs, idx)
  {
    var head := HoldingRow(py, hd, ticker, hs[0]).value;
    var tail := HoldingRows(py, hd, ticker, hs[1..]).value;
    assert HoldingRows(py, hd, ticker, hs).value == head + tail;
    if Selected(py, ticker, hs[0]) {
      idx := [0] + FirstOccurrence.Shift(rest);
      StepRowsAtSkipped(py, hd, ticker, hs, tail, rest);
      RowsAtCons(py, hd, ticker, hs, tail, FirstOccurrence.Shift(rest));
    } else {
      idx := FirstOccurrence.Shift(rest);
      assert head + tail == tail;
      StepRowsAtSkipped(py, hd, ticker, hs, tail, rest);
    }
    StepSelectedAt(py, ticker, hs, rest, idx);
  }

  lemma RowsAtCons(py: Builtins, hd: Header, ticker: string, hs: seq<Value>, rows: seq<Row>, idx: seq<nat>)
    requires hs != [] && Selected(py, ticker, hs[0])
    requires RowsAt(py, hd, ticker, hs, rows, idx)
    ensures RowsAt(py, hd, ticker, hs, [RowFor(py, hd, ticker, hs[0].fields, ValueKOf(py, hs[0].fields).value)] + rows, [0] + idx)
  {
    var rows' := [RowFor(py, hd, ticker, hs[0].fields, ValueKOf(py, hs[0].fields).value)] + rows;
    var idx' := [0] + idx;
    forall p | 0 < p < |idx'|
      ensures idx'[p] == idx[p - 1] && rows'[p] == rows[p - 1]
    {
    }
  }

  lemma StepRowsAtSkipped(py: Builtins, hd: Header, ticker: string, hs: seq<Value>, tail: seq<Row>, rest: seq<nat>)
    requires hs != []
    requires RowsAt(py, hd, ticker, hs[1..], tail, rest)
    ensures RowsAt(py, hd, ticker, hs, tail, FirstOccurrence.Shift(rest))
  {
    var idx := FirstOccurrence.Shift(rest);
    forall p | 0 <= p < |idx|
      ensures idx[p] < |hs| && Selected(py, ticker, hs[idx[p]])
      ensures tail[p] == RowFor(py, hd, ticker, hs[idx[p]].fields, ValueKOf(py, hs[idx[p]].fields).value)
    {
      TailRowAt(py, hd, ticker, hs, tail, rest, p);
    }
  }

  lemma TailRowAt(py: Builtins, hd: Header, ticker: string, hs: seq<Value>, tail: seq<Row>, rest: seq<nat>, q: nat)
    requires hs != [] && RowsAt(py, hd, ticker, hs[1..], tail, rest) && q < |rest|
    ensures rest[q] + 1 < |hs| && Selected(py, ticker, hs[rest[q] + 1])
    ensures tail[q] == RowFor(py, hd, ticker, hs[rest[q] + 1].fields, ValueKOf(py, hs[rest[q] + 1].fields).value)
  {
    assert hs[rest[q] + 1] == hs[1..][rest[q]];
  }

  lemma StepSelectedAt(py: Builtins, ticker: string, hs: seq<Value>, rest: seq<nat>, idx: seq<nat>)
    requires hs != []
    requires forall i: nat :: i in FirstOccurrence.Shift(rest) <==> i >= 1 && i - 1 in rest
    requires SelectedAt(py, ticker, hs[1..], rest)
    requires idx == (if Selected(py, ticker, hs[0]) then [0] + FirstOccurrence.Shift(rest) else FirstOccurrence.Shift(rest))
    ensures SelectedAt(py, ticker, hs, idx)
  {
    var sh := FirstOccurrence.Shift(rest);
    forall j | 0 <= j < |hs| ensures (j in idx <==> Selected(py, ticker, hs[j])) {
      if j > 0 {
        assert hs[j] == hs[1..][j - 1];
        assert j in idx <==> j in sh;
      } else {
        assert 0 !in sh;
      }
    }
  }

  lemma FilingRowsWalked(py: Builtins, f: Value, ticker: string)
    requires Walked(f) && Get(f.fields, "holdings").Array?
    ensures FilingRows(py, f, ticker) == HoldingRows(py, HeaderOf(f.fields), ticker, Get(f.fields, "holdings").items)
  {
  }

  lemma ExtractCons(py: Builtins, fs: seq<Value>, ticker: string)
    requires fs != [] && Extract(py, fs, ticker).Ok?
    ensures FilingRows(py, fs[0], ticker).Ok? && Extract(py, fs[1..], ticker).Ok?
    ensures Extract(py, fs, ticker).value == FilingRows(py, fs[0], ticker).value + Extract(py, fs[1..], ticker).value
  {
  }

  lemma ExtractRowInHead(py: Builtins, fs: seq<Value>, ticker: string, p: nat, row: Row) returns (k: nat)
    requires fs != [] && Extract(py, fs, ticker).Ok? && FilingRows(py, fs[0], ticker).Ok?
    requires p < |FilingRows(py, fs[0], ticker).value| && FilingRows(py, fs[0], ticker).value[p] == row
    ensures k < |Extract(py, fs, ticker).value| && Extract(py, fs, ticker).value[k] == row
  {
    ExtractCons(py, fs, ticker);
    k := p;
  }

  lemma ExtractRowInRest(py: Builtins, fs: seq<Value>, ticker: string, q: nat, row: Row) returns (k: nat)
    requires fs != [] && Extract(py, fs, ticker).Ok? && Extract(py, fs[1..], ticker).Ok?
    requires q < |Extract(py, fs[1..], ticker).value| && Extract(py, fs[1..], ticker).value[q] == row
    ensures k < |Extract(py, fs, ticker).value| && Extract(py, fs, ticker).value[k] == row
  {
    ExtractCons(py, fs, ticker);
    k := |FilingRows(py, fs[0], ticker).value| + q;
  }

  /** A selected holding of a walked filing yields its row in the filing's rows. */
  lemma FilingRowFromHolding(py: Builtins, f: Value, ticker: string, j: nat) returns (p: nat)
    requires Walked(f) && Get(f.fields, "holdings").Array? && FilingRows(py, f, ticker).Ok?
    requires j < |Get(f.fields, "holdings").items| && Selected(py, ticker, Get(f.fields, "holdings").items[j])
    ensures p < |FilingRows(py, f, ticker).value|
    ensures var h := Get(f.fields, "holdings").items[j];
      FilingRows(py, f, ticker).value[p] == RowFor(py, HeaderOf(f.fields), ticker, h.fields, ValueKOf(py, h.fields).value)
  {
    var items := Get(f.fields, "holdings").items;
    FilingRowsWalked(py, f, ticker);
    var idx := HoldingRowsPositions(py, HeaderOf(f.fields), ticker, items);
    assert j in idx;
    p :| 0 <= p < |idx| && idx[p] == j;
  }

  /** Conversely to `ExtractRowOrigin`: in a run that raises nothing, every
      selected holding of a walked filing yields its row. */
  lemma {:induction false} ExtractRowFromHolding(py: Builtins, fs: seq<Value>, ticker: string, i: nat, j: nat)
    returns (k: nat)
    requires Extract(py, fs, ticker).Ok?
    requires i < |fs| && Walked(fs[i]) && Get(fs[i].fields, "holdings").Array?
    requires j < |Get(fs[i].fields, "holdings").items| && Selected(py, ticker, Get(fs[i].fields, "holdings").items[j])
    ensures k < |Extract(py, fs, ticker).value|
    ensures var h := Get(fs[i].fields, "holdings").items[j];
      Extract(py, fs, ticker).value[k] == RowFor(py, HeaderOf(fs[i].fields), ticker, h.fields, ValueKOf(py, h.fields).value)
    decreases i
  {
    var h := Get(fs[i].fields, "holdings").items[j];
    var row := RowFor(py, HeaderOf(fs[i].fields), ticker, h.fields, ValueKOf(py, h.fields).value);
    ExtractCons(py, fs, ticker);
    if i == 0 {
      var p := FilingRowFromHolding(py, fs[0], ticker, j);
      k := ExtractRowInHead(py, fs, ticker, p, row);
    } else {
      assert fs[1..][i - 1] == fs[i];
      var k' := ExtractRowFromHolding(py, fs[1..], ticker, i - 1, j);
      k := ExtractRowInRest(py, fs, ticker, k', row);
    }
  }

  /** Every row comes from a holding of a walked filing whose ticker
      upper-cases to `ticker.upper()` and whose value parses; the row copies
      the filing's accession number, manager, period and filing time, carries
      `ticker.upper()`, and takes its share count and value from that
      holding. */
  lemma {:induction false} ExtractRowOrigin(py: Builtins, fs: seq<Value>, ticker: string, k: nat)
    returns (i: nat, j: nat)
    requires Extract(py, fs, ticker).Ok? && k < |Extract(py, fs, ticker).value|
    ensures i < |fs| && Walked(fs[i]) && Get(fs[i].fields, "holdings").Array?
    ensures j < |Get(fs[i].fields, "holdings").items|
    ensures Selected(py, ticker, Get(fs[i].fields, "holdings").items[j])
    ensures var h := Get(fs[i].fields, "holdings").items[j];
      Extract(py, fs, ticker).value[k] == RowFor(py, HeaderOf(fs[i].fields), ticker, h.fields, ValueKOf(py, h.fields).value)
  {
    var head := FilingRows(py, fs[0], ticker);
    var rest := Extract(py, fs[1..], ticker);
    var all := Extract(py, fs, ticker).value;
    assert head.Ok? && rest.Ok? && all == head.value + rest.value;
    if k < |head.value| {
      i := 0;
      FilingContributes(py, fs[0], ticker);
      var items := Get(fs[0].fields, "holdings").items;
      j := HoldingRowOrigin(py, HeaderOf(fs[0].fields), ticker, items, k);
      assert all[k] == head.value[k];
    } else {
      var i', j' := ExtractRowOrigin(py, fs[1..], ticker, k - |head.value|);
      i, j := i' + 1, j';
      var f := fs[1..][i'];
      var h := Get(f.fields, "holdings").items[j];
      assert rest.value[k - |head.value|] == RowFor(py, HeaderOf(f.fields), ticker, h.fields, ValueKOf(py, h.fields).value);
      assert fs[i] == f;
      assert all[k] == rest.value[k - |head.value|];
    }
  }

  /** Every emitted row carries `ticker.upper()`, which is already upper
      case: upper-casing the stored ticker again gives it back. */
  lemma ExtractRowsMatchTicker(py: Builtins, fs: seq<Value>, ticker: string)
    requires Extract(py, fs, ticker).Ok?
    ensures forall k :: 0 <= k < |Extract(py, fs, ticker).value| ==>
      Extract(py, fs, ticker).value[k].ticker == Text.Upper(ticker)
    ensures forall k :: 0 <= k < |Extract(py, fs, ticker).value| ==>
      Text.Upper(Extract(py, fs, ticker).value[k].ticker) == Extract(py, fs, ticker).value[k].ticker
  {
    Text.UpperIdempotent(ticker);
    forall k | 0 <= k < |Extract(py, fs, ticker).value|
      ensures Extract(py, fs, ticker).value[k].ticker == Text.Upper(ticker)
    {
      var i, j := ExtractRowOrigin(py, fs, ticker, k);
    }
  }
}

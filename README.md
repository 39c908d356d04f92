# 13F holdings, inferred trades and exposure signals — a Dafny model

The system pulls 13F-HR filings for a ticker from the SEC EDGAR search API and
deduplicates them by accession number. It extracts the holding rows for the
ticker and stores them in a SQLite `holdings` table under a unique index on
(accession_no, manager, ticker). From the table, it infers per-manager trades
by comparing each quarter's position with the previous one. A separate report
labels each period NEUTRAL, MATCH or MISMATCH according to whether the net
exposure change and the next quarter's return agree in sign.

This project models that core and proves its properties:

- `sec_edgar.dfy` (module `SecEdgar`):
  - `_safe_int`, `_safe_float`, the accession-number `or` chain and the filing deduplication loop;
  - `extract_holdings`, as its two nested loops (one method each) proved against a recursive specification;
  - Python's exceptions on malformed responses, as a `Result`.
- `json.dfy` (module `Json`): the decoded JSON values as Python sees them. This covers truthiness, `dict.get`, `or`, and the equality a `set` uses.
- `db.dfy` (module `HoldingsDb`): the `holdings` table.
  - It is a class with the stored rows and the unique index.
  - `insert_holdings` is one INSERT OR IGNORE per row, proved against a specification function.
  - A share count the driver cannot bind raises before the commit, and the table is left as it was.
  - The lemmas cover unique keys, first wins, amendments and idempotence.
- `first_occurrence.dfy` (module `FirstOccurrence`): the "keep the first element of each key" rule. The deduplication loop and INSERT OR IGNORE share it.
- `analysis.dfy` (module `TradeInference`): the trade query, as explicit partitions.
  - The `base` step computes the quantity proxy.
  - LAG runs over each (manager, ticker) partition ordered by quarter, and the first row is dropped.
  - Deltas are classified BUY/SELL/HOLD, and the output is ordered by (ticker, manager, quarter).
- `run_factor.dfy` (module `ExposureSignal`): the NEUTRAL/MATCH/MISMATCH rule.
- `pipeline.dfy` (module `Pipeline`): how `main.py` binds extracted rows as the parameters of the insert.
- `text.dfy`, `sorting.dfy`, `wrappers.dfy`: the supporting modules.
  - Text: ASCII upper-casing, and SQLite's BINARY text order. ISO dates sort chronologically under it.
  - Sorting: a stable insertion sort.
  - Wrappers: Option and Result.

## Behaviour worth knowing

- **Zero-valued fields.** Both fallback chains use Python's `or`, so a zero is treated like a missing value and the next field is consulted.
  - The last field of each chain is returned as it is, even when it is falsy.
  - A holding whose `value` and `marketValue` are falsy and whose `valueK` is `0` is kept, with value 0.0. It is not skipped.
  - `shares` is 0, not None, when `shares` is falsy and `sshPrnamt` is `0`.
- **Duplicate periods.** The query orders a partition by `quarter` alone, with no tie-break on the filing date. Rows of one manager and ticker that share a period are neither rejected nor flagged.
  - They are possible because the store's unique key does not include the period.
  - Amended filings are one such case (`HoldingsDb.AmendmentStoredBeside`).
- **The MISMATCH branch.** The signal rule's last branch is a plain `else`. A NaN on either side, against a non-zero value, is therefore labelled MISMATCH.
- **Share counts beyond 64 bits.** `_safe_int` returns Python's unbounded int, and nothing bounds it before the insert.
  - sqlite3 raises OverflowError when it binds an int outside the signed 64-bit range.
  - `insert_holdings` then never reaches `commit`, so the whole batch of that ticker is lost, not only the oversized row.
- **Rows with a NULL `value_k`.** The query drops them with a WHERE clause rather than rejecting them. The NOT NULL column means none ever reach it.

## Model

| member | source | states |
|---|---|---|
| `SecEdgar.SafeFloat` | sec_edgar.py:16-22 | None for None, lists and dicts; the number itself for bools, ints and floats; the parser's verdict for strings |
| `SecEdgar.Trunc` | sec_edgar.py:11 | `int()` of a float truncates toward zero: the result is the nearest integer on the zero side, within 1 of the input |
| `SecEdgar.SafeInt` | sec_edgar.py:7-13 | fails exactly where `_safe_float` fails; otherwise the truncation toward zero of `_safe_float`'s result |
| `SecEdgar.AccessionOf` | sec_edgar.py:60 | the first truthy value among accessionNo, accessionNumber, id, linkToHtml, else linkToHtml as it is; truthy iff one of the four is |
| `SecEdgar.DedupFrom` | sec_edgar.py:58-66 | definition: the deduplication from a given `seen` set; a non-dict filing raises AttributeError, a falsy accession number skips the filing, an unhashable one raises TypeError, a seen one is dropped and a new one is kept and added to `seen`; described by `DedupFailsIff` and `DedupIsKeepFirst` |
| `SecEdgar.Dedup` | sec_edgar.py:56-66 | definition: the deduplication starting from the empty `seen` set; `DedupFilings` is proved equal to it, and `DedupKeepsFirstOccurrences` describes its result |
| `SecEdgar.DedupFilings` | sec_edgar.py:56-66 | the loop with its `seen` set and `unique` list returns exactly the deduplication specification, exceptions included |
| `SecEdgar.DedupFailsIff` | sec_edgar.py:59-63 | the loop raises iff some filing is not a dict or has a truthy unhashable accession number |
| `SecEdgar.DedupIsKeepFirst` | sec_edgar.py:57-66 | when it does not raise, the loop keeps the first filing of each accession number and drops filings without one |
| `SecEdgar.DedupKeepsFirstOccurrences` | sec_edgar.py:56-66 | the result is the subsequence of first occurrences, in input order; no two share an accession number; every accession number present survives |
| `SecEdgar.SharesOf` | sec_edgar.py:102 | definition: `_safe_int` of `shares or sshPrnamt`; described by `SharesWhenTruthy` and `SharesWhenFalsy` |
| `SecEdgar.ValueKOf` | sec_edgar.py:105 | definition: `_safe_float` of `value or marketValue or valueK`; described by `ValueKWhenTruthy`, `ValueKFromMarketValue` and `ValueKWhenFalsy` |
| `SecEdgar.Selected` | sec_edgar.py:97-108 | definition: a holding yields a row iff it is a dict, its ticker upper-cases to `ticker.upper()` and its value parses; used by `HoldingRowSelected` and `HoldingRowsPositions` |
| `SecEdgar.HoldingRow` | sec_edgar.py:97-118 | definition: one pass of the inner loop; a non-dict raises AttributeError, a truthy non-string ticker raises as `HoldingTicker` says, another ticker or a missing value gives no row, and a selected holding gives its row; described by `HoldingRowSelected` |
| `SecEdgar.HoldingRows` | sec_edgar.py:97-118 | definition: the inner loop over a filing's holdings, stopping at the first exception; described by `HoldingRowsFailIff`, `HoldingRowsAppend`, `HoldingRowsAtMostOnePerHolding` and `HoldingRowsPositions` |
| `SecEdgar.FilingRows` | sec_edgar.py:81-97 | definition: one filing's rows; a non-dict raises AttributeError, a filing missing accession number, manager, period or holdings gives none, a truthy non-list holdings raises, and a list is walked by `HoldingRows`; described by `FilingSkipped` and `FilingContributes` |
| `SecEdgar.Extract` | sec_edgar.py:71-120 | definition: `extract_holdings`, the filings' rows concatenated in order, stopping at the first exception; `ExtractHoldings` is proved equal to it, and `ExtractFailsIff`, `ExtractAppend`, `ExtractRowOrigin` and `ExtractRowFromHolding` describe it |
| `SecEdgar.HoldingTicker` | sec_edgar.py:98 | a falsy ticker compares as ""; a truthy string ticker compares as its upper-cased self; a truthy ticker that is not a string raises AttributeError |
| `SecEdgar.ExtractHoldings` | sec_edgar.py:71-120 | the loop over the filings returns exactly the extraction specification, exceptions included |
| `SecEdgar.AppendFilingRows` | sec_edgar.py:81-97 | one pass over a filing appends exactly that filing's rows to those already gathered, or raises as the filing does |
| `SecEdgar.AppendHoldingRows` | sec_edgar.py:97-118 | the loop over one filing's holdings appends exactly their rows, in order, or raises at the first malformed holding |
| `SecEdgar.SharesWhenTruthy` | sec_edgar.py:102 | when `shares` is truthy the count is `_safe_int` of `shares`, and `sshPrnamt` is not consulted |
| `SecEdgar.SharesWhenFalsy` | sec_edgar.py:102 | when `shares` is falsy the count comes from `sshPrnamt`: a zero there gives 0, an absent one gives None |
| `SecEdgar.ValueKWhenTruthy` | sec_edgar.py:105-108 | when `value` is truthy the value is `_safe_float` of `value`; a list or dict there gives no value, so the holding is skipped |
| `SecEdgar.ValueKFromMarketValue` | sec_edgar.py:105 | when `value` is falsy and `marketValue` truthy, the value is `_safe_float` of `marketValue` |
| `SecEdgar.ValueKWhenFalsy` | sec_edgar.py:104-108 | when value, marketValue and valueK are all falsy, a numeric zero valueK is kept as 0.0 and anything else gives no value |
| `SecEdgar.FilingSkipped` | sec_edgar.py:86-95 | a dict filing without accession number, manager, period or holdings contributes no rows and raises nothing |
| `SecEdgar.FilingContributes` | sec_edgar.py:86-97 | a filing that contributes rows has all four and a list of holdings |
| `SecEdgar.HoldingRowsFailIff` | sec_edgar.py:97-99 | walking a holdings list raises iff some holding is not a dict or has a truthy non-string ticker |
| `SecEdgar.ExtractFailsIff` | sec_edgar.py:81-99 | extraction raises iff some filing is malformed |
| `SecEdgar.ExtractAppend` | sec_edgar.py:81-120 | rows come out in filing order: extracting a concatenation concatenates the extractions |
| `SecEdgar.HoldingRowsAppend` | sec_edgar.py:97-118 | within a filing, rows come out in holding order |
| `SecEdgar.HoldingRowsAtMostOnePerHolding` | sec_edgar.py:97-118 | at most one row per holding of a filing |
| `SecEdgar.ExtractCountBound` | sec_edgar.py:79-120 | at most one row per listed holding across all filings |
| `SecEdgar.HoldingRowOrigin` | sec_edgar.py:97-118 | every row of a filing comes from one of its selected holdings |
| `SecEdgar.HoldingRowSelected` | sec_edgar.py:97-118 | a holding that passes the ticker and value tests yields exactly its row; any other holding yields nothing |
| `SecEdgar.HoldingRowsPositions` | sec_edgar.py:97-118 | the rows of a filing correspond, in order, to the increasing positions of exactly its selected holdings, each row built from its holding |
| `SecEdgar.FilingRowFromHolding` | sec_edgar.py:91-118 | every selected holding of a walked filing yields its row among the filing's rows |
| `SecEdgar.ExtractRowFromHolding` | sec_edgar.py:81-118 | conversely to `ExtractRowOrigin`: every selected holding of a walked filing yields its row in the output |
| `SecEdgar.ExtractRowOrigin` | sec_edgar.py:81-118 | every row comes from a selected holding of a walked filing; it copies that filing's header and takes shares and value from that holding |
| `SecEdgar.ExtractRowsMatchTicker` | sec_edgar.py:98-114 | every row carries the upper-cased requested ticker, which upper-casing leaves unchanged |
| `Json.Get` | sec_edgar.py:82-84 | `dict.get`: the stored value, or None when the key is absent |
| `Json.Or` | sec_edgar.py:60 | Python `or`: the left operand when it is truthy, otherwise the right one; truthy iff either operand is |
| `Json.Hash` | sec_edgar.py:63 | set membership: lists and dicts are unhashable |
| `Json.HashEqualIff` | sec_edgar.py:63-65 | two values are one set element iff equal, or numbers of equal value across bool, int and float |
| `Text.Upper` | sec_edgar.py:98 | `.upper()` maps each character, keeping the length |
| `Text.IsoDateOrder` | analysis.py:47 | text order of ISO calendar dates is chronological order |
| `FirstOccurrence.KeepFirstPositions` | sec_edgar.py:57-66 | keeping the first of each key yields, in order, exactly the first occurrences of keys not seen before |
| `FirstOccurrence.KeepFirstDistinct` | db.py:30-33 | no two kept elements share a key, and none has a key seen before |
| `FirstOccurrence.KeepFirstCovers` | db.py:46-50 | every key present and not seen before is kept |
| `HoldingsDb.Bindable` | db.py:46-50 | definition: the driver binds a record iff its share count is None or lies in the signed 64-bit range; outside it sqlite3 raises OverflowError; used by `HoldingsTable.InsertHoldings` and `Pipeline.ToRecord` |
| `HoldingsDb.Admit` | db.py:18-26 | a row is storable iff accession_no, manager, quarter, ticker and value_k are non-NULL; it is stored as bound |
| `HoldingsDb.InsertOne` | db.py:46-50 | definition: one INSERT OR IGNORE on the stored rows; described by `InsertOneStep` |
| `HoldingsDb.InsertAll` | db.py:46-50 | definition: the batch's statements in order; `HoldingsTable.InsertHoldings` is proved against it, and `InsertAllIsKeepFirst`, `InsertAllFirstWins`, `InsertAllKeys` and `InsertAllIdempotent` describe it |
| `HoldingsDb.InsertOneStep` | db.py:46-50 | one INSERT OR IGNORE appends the row iff it is storable and its key is not indexed, and indexes its key; unique keys are kept |
| `HoldingsDb.HoldingsTable.constructor` | db.py:17-33 | the created table is empty with an empty index |
| `HoldingsDb.HoldingsTable.InsertOrIgnore` | db.py:46-50 | one statement changes the rows as `InsertOne` says and keeps the index equal to the stored keys |
| `HoldingsDb.HoldingsTable.InsertHoldings` | db.py:39-53 | commits iff every row's share count fits a signed 64-bit INTEGER; then the table becomes `InsertAll` of the old table and the batch (nothing for an empty batch), with the index in step; otherwise the uncommitted batch leaves the table as it was |
| `HoldingsDb.InsertAllIsKeepFirst` | db.py:46-50 | a batch appends the storable first occurrences of keys not yet stored, in batch order |
| `HoldingsDb.InsertAllKeepsKeysUnique` | db.py:29-33 | after any batch no two rows share (accession_no, manager, ticker) |
| `HoldingsDb.InsertAllFirstWins` | db.py:46-50 | stored rows stay as they were; the appended rows are exactly the first storable record of each new key, in order |
| `HoldingsDb.InsertAllKeys` | db.py:46-50 | the keys after a batch are the old keys plus the keys of the storable records |
| `HoldingsDb.InsertAllNothingNew` | db.py:46-50 | a batch of unstorable or already-stored rows changes nothing |
| `HoldingsDb.InsertAllIdempotent` | db.py:29-50 | inserting a batch twice stores what inserting it once does |
| `HoldingsDb.AmendmentStoredBeside` | db.py:30-33 | two storable rows with new keys and different accession numbers are both stored, whatever their period |
| `TradeInference.FiledDate` | analysis.py:21 | NULL stays NULL; otherwise a prefix of filed_at of length min(10, length) |
| `TradeInference.Base` | analysis.py:24-33 | the source tag is 'shares' iff shares is non-NULL; the stored columns are carried over |
| `TradeInference.ProxyChoice` | analysis.py:24-31 | the proxy is the share count when present, zero included, else value_k |
| `TradeInference.Classify` | analysis.py:61-65 | BUY iff delta > 0, SELL iff delta < 0, HOLD iff delta = 0 |
| `TradeInference.TradeOf` | analysis.py:51-66 | delta is qty minus the previous qty, and the action is its classification; period, filing date, shares, value and source come from the current row |
| `TradeInference.Lagged` | analysis.py:45-48 | n rows give n-1 trades; trade i is row i+1 against row i |
| `TradeInference.AddKey` | analysis.py:46 | the partition list gains the key and nothing else |
| `TradeInference.Partitions` | analysis.py:46 | the partitions are exactly the (ticker, manager) pairs of the table |
| `TradeInference.PartitionsSorted` | analysis.py:69 | the partitions are strictly increasing by ticker, then manager |
| `TradeInference.PartKeyOf` | analysis.py:46 | definition: the (ticker, manager) partition of a stored row |
| `TradeInference.Group` | analysis.py:46 | a partition's rows all belong to its manager and ticker and come from the table |
| `TradeInference.GroupPositions` | analysis.py:45-47 | a partition is, in table order, the rows at the increasing positions of exactly the table rows of its manager and ticker |
| `TradeInference.GroupComplete` | analysis.py:45-47 | every table row of that manager and ticker is in its partition |
| `TradeInference.SortedGroup` | analysis.py:47 | a partition in period order is sorted by quarter and holds the same rows |
| `TradeInference.SortByQuarter` | analysis.py:47 | definition: a stable sort of a partition by `quarter`; described by `SortedGroup` |
| `TradeInference.Block` | analysis.py:45-68 | definition: a partition sorted by period, passed through LAG, with its first row dropped; described by `PartitionTrades` and `TradeCount` |
| `TradeInference.InferTrades` | analysis.py:15-69 | definition: the whole query, the blocks of the partitions in (ticker, manager) order; described by `TradesPerPartition`, `PartitionTrades`, `InferTradesSorted` and `InferTradesOrderIndependent` |
| `TradeInference.TradesPerPartition` | analysis.py:45-68 | the output restricted to one manager and ticker is LAG over that partition in period order, without its first row |
| `TradeInference.TradeCount` | analysis.py:45-68 | a manager and ticker with n table rows yields n-1 trades, or none when n is 0 |
| `TradeInference.PartitionTrades` | analysis.py:45-68 | a partition of n rows yields n-1 trades, each a row against its immediate predecessor in period order |
| `TradeInference.LaggedTelescopes` | analysis.py:45-60 | the deltas of a lagged partition sum to its last proxy minus its first |
| `TradeInference.PartitionDeltasTelescope` | analysis.py:45-60 | per manager and ticker, the output deltas sum to last minus first proxy in period order |
| `TradeInference.InferTradesSorted` | analysis.py:69 | the output is ordered by ticker, manager, quarter |
| `TradeInference.EarliestRowNeverTraded` | analysis.py:45-68 | with one row per period, the earliest row is strictly before every trade of its partition |
| `TradeInference.InferTradesOrderIndependent` | analysis.py:45-69 | with one row per period, the output does not depend on the table's row order |
| `ExposureSignal.SignalOf` | run_factor.py:24-29 | NEUTRAL iff either side is zero; MATCH iff both positive or both negative; MISMATCH iff neither zero nor same strict sign |
| `ExposureSignal.MismatchOnNumbers` | run_factor.py:28-29 | on numbers, MISMATCH iff both non-zero with opposite signs |
| `ExposureSignal.NaNIsMismatch` | run_factor.py:24-29 | NaN against anything but zero is MISMATCH |
| `ExposureSignal.SignalSymmetric` | run_factor.py:24-29 | the label is symmetric in its arguments |
| `ExposureSignal.SignalIsSignOfProduct` | run_factor.py:24-29 | on numbers, the label is the sign of the product |
| `ExposureSignal.SignalScaleInvariant` | run_factor.py:24-29 | scaling either side by a positive factor keeps the label |
| `ExposureSignal.SignalNegate` | run_factor.py:26-29 | negating the exposure swaps MATCH and MISMATCH |
| `Pipeline.ToRecord` | main.py:64-66 | an extracted row is bound storable, with accession_no, manager, quarter, ticker, value_k and share count as extracted and a text `filed_at` as it is, NULL exactly when `filed_at` is None; it can be bound iff that count is None or fits 64 bits |
| `Pipeline.ToRecords` | main.py:65-66 | the batch binds every extracted row, in order |
| `Pipeline.StoredKeys` | main.py:64-66 | after storing extracted rows, the keys are the old keys plus those of the extracted rows |
| `Pipeline.ExtractedRowsAdmitted` | main.py:65-66 | no extracted row is turned away by NOT NULL, for values without NaN (see Left out) |

## Left out

- The HTTP request and everything before the deduplication loop in `get_13f_filings_for_ticker` (API key check, date window, query payload, `raise_for_status`, `.get("filings", [])`) are left out. They are network I/O. The decoded filing list is a parameter.
- `float()` applied to a string and `str()` applied to a non-string value are parameters (`SecEdgar.Builtins`). Python's number parsing and formatting are not modelled.
- `SecEdgar.SafeFloat`: reals stand for floats. A JSON `NaN`, `Infinity` or `-Infinity` token, a JSON number beyond the double range (read as an infinity), a string that parses to NaN or an infinity, and the rounding of large integers to floats, are not modelled. Neither is `float()` of an int beyond the largest double: Python raises OverflowError, which `_safe_float` catches as None, while the model returns the number.
- `SecEdgar.SafeInt`: `int()` of a huge float is exact here. Python raises OverflowError for an infinity and ValueError for NaN, both caught as None; neither is modelled, because the model has no such reals. Likewise an int beyond the largest double makes `float()` raise inside `_safe_int`, giving None; the model truncates the number itself.
- `Text.Upper`: only ASCII letters are upper-cased. Python's full Unicode case mapping is not modelled.
- SQLite connection, commit and close, and `create_db`'s IF NOT EXISTS on a pre-existing database, are left out. The model holds only the table contents.
- SQLite type affinity is not modelled:
  - TEXT columns receiving numbers;
  - REAL receiving integers.
  - `Pipeline.ToRecord` binds a non-string, non-None `filed_at` as its `str()` text. Python's sqlite3 would raise for a dict or list, and OverflowError for an int outside the signed 64-bit range, as it does for `shares`; `HoldingsDb.Bindable` checks only `shares`.
- Rows of one partition that share a period: SQLite may order them either way, both under LAG and under ORDER BY. The model keeps their table order. `TradeInference.InferTradesOrderIndependent` and `TradeInference.EarliestRowNeverTraded` therefore assume one row per period.
- The OverflowError itself is not modelled past `insert_holdings`: in `main.py` it ends the run, so later tickers are never fetched. `HoldingsDb.HoldingsTable.InsertHoldings` reports it as `committed == false`.
- `Pipeline.ExtractedRowsAdmitted`: holds only because the model's values have no NaN. In the program a holding whose value is NaN (the string `"nan"`, or a JSON `NaN` token) passes the `is None` test and is extracted. sqlite3 binds a NaN double as NULL, so NOT NULL on `value_k` turns the row away and INSERT OR IGNORE skips it without an error.
- `CAST(shares AS REAL)` is exact here. Doubles lose precision beyond 2^53.
- Delta and the sign tests use real arithmetic. Float rounding is not modelled.
- The pandas conversion of the result (analysis.py:72) is left out.
- Report writing and plotting are left out, being file output and number formatting: `write_pretty_txt_by_ticker` in main.py, `write_exposure_summary_txt` apart from lines 24-29, `write_stats_txt`, make_plots.py, and update_prices.py.
- `compute_exposure_vs_next_q_return` and `run_stats` come from analysis_stock.py and stats_tests.py, which are not part of this model.
- `ExposureSignal.SignalOf`: an infinity is represented by a number of its sign. The rule only compares with zero.

/**
 * The TSV import of `DashboardDataSync` (data_sync_sqlite.py): the body is
 * split into lines, each data line into tab-separated cells padded to the
 * header's width, and fixed cell positions become the columns of one
 * inserted record. The database is an output sequence the inserted records
 * are appended to; the clock, the network and numeric parsing are inputs.
 */
module DataSync {
  import opened Wrappers
  import opened Strings
  import opened Sequences

  // ---------------------------------------------------------------------
  // Lines and cells
  // ---------------------------------------------------------------------

  /** `fetch_tsv_data`'s `data.strip().split('\n')`. */
  function FetchTsvLines(data: string): (lines: seq<string>)
    ensures |lines| >= 1
    ensures forall k :: 0 <= k < |lines| ==> '\n' !in lines[k]
  {
    Split(Strip(data, PyWhitespace), '\n')
  }

  /** The first character of a join is the first character of its first piece. */
  lemma {:induction false} JoinFirst(parts: seq<string>, sep: string)
    requires |parts| >= 1 && parts[0] != ""
    ensures Join(parts, sep) != "" && Join(parts, sep)[0] == parts[0][0]
  {
    if |parts| > 1 {
      assert Join(parts, sep) == parts[0] + sep + Join(parts[1..], sep);
    }
  }

  /** The last character of a join is the last character of its last piece. */
  lemma {:induction false} JoinLast(parts: seq<string>, sep: string)
    requires |parts| >= 1 && parts[|parts| - 1] != ""
    ensures var s := Join(parts, sep); s != "" && s[|s| - 1] == parts[|parts| - 1][|parts[|parts| - 1]| - 1]
  {
    if |parts| > 1 {
      JoinLast(parts[1..], sep);
      assert parts[1..][|parts| - 2] == parts[|parts| - 1];
    }
  }

  /**
   * The lines come back exactly as they were joined, provided the text does
   * not begin or end with whitespace: only `\n` separates lines, so a `\r`
   * before it stays at the end of its line's last cell.
   */
  lemma LinesRoundTrip(lines: seq<string>)
    requires |lines| >= 1
    requires forall k :: 0 <= k < |lines| ==> '\n' !in lines[k]
    requires lines[0] != "" && lines[0][0] !in PyWhitespace
    requires lines[|lines| - 1] != "" && lines[|lines| - 1][|lines[|lines| - 1]| - 1] !in PyWhitespace
    ensures FetchTsvLines(Join(lines, "\n")) == lines
  {
    assert "\n" == ['\n'];
    StripSplitJoin(lines, '\n', PyWhitespace);
  }

  /** Stripping characters the joined text neither starts nor ends with, then splitting, undoes the join. */
  lemma StripSplitJoin(lines: seq<string>, sep: char, chars: set<char>)
    requires |lines| >= 1
    requires forall k :: 0 <= k < |lines| ==> sep !in lines[k]
    requires lines[0] != "" && lines[0][0] !in chars
    requires lines[|lines| - 1] != "" && lines[|lines| - 1][|lines[|lines| - 1]| - 1] !in chars
    ensures Split(Strip(Join(lines, [sep]), chars), sep) == lines
  {
    JoinFirst(lines, [sep]);
    JoinLast(lines, [sep]);
    StripUnchanged(Join(lines, [sep]), chars);
    SplitJoin(lines, sep);
  }

  /** A header and a row separated by `\r\n`: the header keeps its `\r`. */
  lemma CarriageReturnSurvives(header: string, row: string)
    requires '\n' !in header && '\n' !in row
    requires header != "" && header[0] !in PyWhitespace
    requires row != "" && row[|row| - 1] !in PyWhitespace
    ensures FetchTsvLines(header + "\r\n" + row) == [header + "\r", row]
  {
    var lines := [header + "\r", row];
    assert '\n' !in lines[0];
    assert Join(lines, "\n") == header + "\r\n" + row;
    LinesRoundTrip(lines);
  }

  /** `row_data[k] if len(row_data) > k else ''`. */
  function Cell(rowData: seq<string>, k: nat): string {
    if |rowData| > k then rowData[k] else ""
  }

  /** The row after `while len(row_data) < len(header): row_data.append('')`. */
  function Pad(rowData: seq<string>, width: nat): (padded: seq<string>)
    ensures |padded| == if |rowData| >= width then |rowData| else width
    ensures padded[..|rowData|] == rowData
    ensures forall k :: |rowData| <= k < |padded| ==> padded[k] == ""
  {
    if |rowData| >= width then rowData else rowData + seq(width - |rowData|, _ => "")
  }

  /** Padding never changes what any cell position reads. */
  lemma PadKeepsCells(rowData: seq<string>, width: nat, k: nat)
    ensures Cell(Pad(rowData, width), k) == Cell(rowData, k)
  {
    var padded := Pad(rowData, width);
    if k < |rowData| {
      assert padded[k] == padded[..|rowData|][k];
    }
  }

  // ---------------------------------------------------------------------
  // Numeric cells
  // ---------------------------------------------------------------------

  /** `str(value).replace(',', '')`. */
  function RemoveCommas(s: string): (r: string)
    ensures ',' !in r
    ensures ',' !in s ==> r == s
    ensures multiset(r) == multiset(s)[',' := 0]
  {
    if s == [] then []
    else
      assert s == [s[0]] + s[1..];
      (if s[0] == ',' then [] else [s[0]]) + RemoveCommas(s[1..])
  }

  /**
   * What `int(float(text))` does with text free of commas: a number, a
   * `ValueError` (not a number, or NaN), or the `OverflowError` of an
   * infinite value, which `safe_int` does not catch.
   */
  datatype IntConversion = Converted(n: int) | Invalid | Overflow

  /** The result of `safe_int`: its value, or the `OverflowError` it lets through. */
  datatype SafeIntResult = IntValue(value: Option<int>) | OverflowRaised

  /** `value and str(value).strip()`: the guard both converters share. */
  predicate Blank(value: string) {
    value == "" || Strip(value, PyWhitespace) == ""
  }

  /**
   * `safe_int`: `None` for blank text and for a `ValueError`; otherwise the
   * number read after removing commas, unless reading it overflows.
   */
  function SafeInt(value: string, intOfFloat: string -> IntConversion): (r: SafeIntResult)
    ensures Blank(value) ==> r == IntValue(None)
    ensures r.IntValue? && r.value.Some? ==> intOfFloat(RemoveCommas(value)) == Converted(r.value.value)
    ensures !Blank(value) && intOfFloat(RemoveCommas(value)).Converted? ==>
      r == IntValue(Some(intOfFloat(RemoveCommas(value)).n))
    ensures !Blank(value) && intOfFloat(RemoveCommas(value)).Invalid? ==> r == IntValue(None)
    ensures r.OverflowRaised? <==> !Blank(value) && intOfFloat(RemoveCommas(value)).Overflow?
  {
    if Blank(value) then IntValue(None)
    else match intOfFloat(RemoveCommas(value))
      case Converted(n) => IntValue(Some(n))
      case Invalid => IntValue(None)
      case Overflow => OverflowRaised
  }

  /**
   * `safe_float`: `None` for blank text; otherwise what `float` reads after
   * removing commas (`parseFloat`, `None` on a `ValueError`).
   */
  function SafeFloat(value: string, parseFloat: string -> Option<real>): (r: Option<real>)
    ensures Blank(value) ==> r.None?
    ensures !Blank(value) ==> r == parseFloat(RemoveCommas(value))
  {
    if Blank(value) then None else parseFloat(RemoveCommas(value))
  }

  /** Text made only of whitespace counts as blank, however long. */
  lemma WhitespaceIsBlank(value: string)
    requires forall i :: 0 <= i < |value| ==> value[i] in PyWhitespace
    ensures Blank(value)
    ensures SafeFloat(value, (_: string) => Some(1.0)) == None
  {
    StripEmptyIffAllIn(value, PyWhitespace);
  }

  // ---------------------------------------------------------------------
  // The record of a row
  // ---------------------------------------------------------------------

  /** The `insert_data` of a row: one field per inserted column. */
  datatype InsertRecord = InsertRecord(
    orderNumber: string, orderDate: string, paymentDate: string,
    projectCode: string, projectName: string, unitNo: string,
    houseNumber: string, unitStatus: string, contactName: string, contactPhone: string,
    productType: string, productGroup: string, productDetail: string,
    color: string, brand: string, productSize: string,
    roomType: string, installPoint: string, installSize: string,
    supplierName: string, poNumber: string, poDate: string,
    installConfirmDate: string, installTimeSlot: string, installDate: string,
    deliveryDate: string, notes: string, documentStatus: string, installStatus: string,
    itemsGroup: string, salesMonth: Option<int>, salesYear: Option<int>,
    building: string, floorLevel: string, syncTimestamp: string,
    costTotalExVat: Option<real>, costTotalInVat: Option<real>,
    saleTotalExVat: Option<real>, saleTotalInVat: Option<real>)

  /** The characters `rstrip('\r\n')` removes. */
  const LineEnd: set<char> := {'\r', '\n'}

  /** A numeric cell through `safe_int`, or `None` when the row is too short. */
  function IntCell(rowData: seq<string>, k: nat, intOfFloat: string -> IntConversion): SafeIntResult {
    if |rowData| > k then SafeInt(rowData[k], intOfFloat) else IntValue(None)
  }

  /** A numeric cell through `safe_float`, or `None` when the row is too short. */
  function FloatCell(rowData: seq<string>, k: nat, parseFloat: string -> Option<real>): Option<real> {
    if |rowData| > k then SafeFloat(rowData[k], parseFloat) else None
  }

  /**
   * The record built from a row's cells, or `None` when `safe_int` raised
   * for the sales month or year, which skips the row.
   */
  function MapRow(rowData: seq<string>, syncTimestamp: string,
                  intOfFloat: string -> IntConversion, parseFloat: string -> Option<real>): Option<InsertRecord>
  {
    var salesMonth := IntCell(rowData, 53, intOfFloat);
    var salesYear := IntCell(rowData, 54, intOfFloat);
    if salesMonth.OverflowRaised? || salesYear.OverflowRaised? then None
    else Some(InsertRecord(
      Cell(rowData, 0), Cell(rowData, 1), Cell(rowData, 2),
      Cell(rowData, 6), Cell(rowData, 8), Cell(rowData, 9),
      Cell(rowData, 10), Cell(rowData, 11), Cell(rowData, 13), Cell(rowData, 14),
      Cell(rowData, 18), Cell(rowData, 19), Cell(rowData, 23),
      Cell(rowData, 24), Cell(rowData, 25), Cell(rowData, 26),
      Cell(rowData, 27), Cell(rowData, 28), Cell(rowData, 29),
      Cell(rowData, 35), Cell(rowData, 36), Cell(rowData, 37),
      Cell(rowData, 41), Cell(rowData, 42), Cell(rowData, 43),
      Cell(rowData, 44), Cell(rowData, 45), Cell(rowData, 46), Cell(rowData, 47),
      Cell(rowData, 22), salesMonth.value, salesYear.value,
      Cell(rowData, 55), RStrip(Cell(rowData, 56), LineEnd), syncTimestamp,
      FloatCell(rowData, 48, parseFloat), FloatCell(rowData, 49, parseFloat),
      FloatCell(rowData, 50, parseFloat), FloatCell(rowData, 51, parseFloat)))
  }

  /**
   * A row is mapped unless a sales cell overflows; the key columns read
   * their fixed positions, `floor_level` loses its trailing `\r`/`\n` and
   * nothing else, and every record carries the sync timestamp.
   */
  lemma MapRowFields(rowData: seq<string>, syncTimestamp: string,
                     intOfFloat: string -> IntConversion, parseFloat: string -> Option<real>)
    ensures MapRow(rowData, syncTimestamp, intOfFloat, parseFloat).None? <==>
      IntCell(rowData, 53, intOfFloat).OverflowRaised? || IntCell(rowData, 54, intOfFloat).OverflowRaised?
    ensures MapRow(rowData, syncTimestamp, intOfFloat, parseFloat).Some? ==>
      var r := MapRow(rowData, syncTimestamp, intOfFloat, parseFloat).value;
      && r.projectCode == Cell(rowData, 6) && r.unitNo == Cell(rowData, 9)
      && r.houseNumber == Cell(rowData, 10) && r.contactName == Cell(rowData, 13)
      && r.itemsGroup == Cell(rowData, 22) && r.productDetail == Cell(rowData, 23)
      && r.installDate == Cell(rowData, 43) && r.installStatus == Cell(rowData, 47)
      && r.syncTimestamp == syncTimestamp
      && (r.floorLevel == "" || r.floorLevel[|r.floorLevel| - 1] !in LineEnd)
      && Cell(rowData, 56) == r.floorLevel + Cell(rowData, 56)[|r.floorLevel|..]
      && (forall i :: |r.floorLevel| <= i < |Cell(rowData, 56)| ==> Cell(rowData, 56)[i] in LineEnd)
  {
    var c := Cell(rowData, 56);
    var f := RStrip(c, LineEnd);
    assert c == c[..|f|] + c[|f|..];
  }

  /** Padding never changes what a numeric cell reads either. */
  lemma PadKeepsNumbers(rowData: seq<string>, width: nat, k: nat,
                        intOfFloat: string -> IntConversion, parseFloat: string -> Option<real>)
    ensures IntCell(Pad(rowData, width), k, intOfFloat) == IntCell(rowData, k, intOfFloat)
    ensures FloatCell(Pad(rowData, width), k, parseFloat) == FloatCell(rowData, k, parseFloat)
  {
    var padded := Pad(rowData, width);
    if k < |rowData| {
      assert padded[k] == padded[..|rowData|][k];
    } else if k < |padded| {
      assert padded[k] == "";
    }
  }

  /** Padding the row first changes nothing in its record. */
  lemma PadKeepsRecord(rowData: seq<string>, width: nat, syncTimestamp: string,
                       intOfFloat: string -> IntConversion, parseFloat: string -> Option<real>)
    ensures MapRow(Pad(rowData, width), syncTimestamp, intOfFloat, parseFloat)
         == MapRow(rowData, syncTimestamp, intOfFloat, parseFloat)
  {
    forall k: nat
      ensures Cell(Pad(rowData, width), k) == Cell(rowData, k)
    {
      PadKeepsCells(rowData, width, k);
    }
    forall k: nat
      ensures IntCell(Pad(rowData, width), k, intOfFloat) == IntCell(rowData, k, intOfFloat)
      ensures FloatCell(Pad(rowData, width), k, parseFloat) == FloatCell(rowData, k, parseFloat)
    {
      PadKeepsNumbers(rowData, width, k, intOfFloat, parseFloat);
    }
  }

  // ---------------------------------------------------------------------
  // The import loop
  // ---------------------------------------------------------------------

  /** The record of a data line: split on tabs, padded to `width`, mapped. */
  function LineRecord(width: nat, line: string, syncTimestamp: string,
                      intOfFloat: string -> IntConversion, parseFloat: string -> Option<real>): Option<InsertRecord> {
    MapRow(Pad(Split(line, '\t'), width), syncTimestamp, intOfFloat, parseFloat)
  }

  /** `f` applied to lines `1 .. n - 1`, in order. */
  function MapLines<T>(lines: seq<string>, n: nat, f: string -> T): (mapped: seq<T>)
    requires 1 <= n <= |lines|
    ensures |mapped| == n - 1
  {
    if n == 1 then [] else MapLines(lines, n - 1, f) + [f(lines[n - 1])]
  }

  /** Entry `k` of the mapped lines is `f` of line `k + 1`. */
  lemma {:induction false} MapLinesAt<T>(lines: seq<string>, n: nat, f: string -> T)
    requires 1 <= n <= |lines|
    ensures forall k :: 0 <= k < n - 1 ==> MapLines(lines, n, f)[k] == f(lines[k + 1])
  {
    if n > 1 {
      MapLinesAt(lines, n - 1, f);
    }
  }

  /** The records of data lines `1 .. n - 1`, `None` where mapping raised; entry `k` is line `k + 1`. */
  function LineRecords(lines: seq<string>, n: nat, syncTimestamp: string,
                       intOfFloat: string -> IntConversion, parseFloat: string -> Option<real>)
    : seq<Option<InsertRecord>>
    requires 1 <= n <= |lines|
  {
    var width := |Split(lines[0], '\t')|;
    MapLines(lines, n, line => LineRecord(width, line, syncTimestamp, intOfFloat, parseFloat))
  }

  /**
   * What reaches the table of per-line records (entry `k` is line `k + 1`):
   * every record, in line order, except where mapping raised (`None`) or
   * the database refused the insert (`rejected` holds the line numbers
   * whose `INSERT` raises).
   */
  function Kept<T>(records: seq<Option<T>>, rejected: set<nat>): (table: seq<T>)
    ensures |table| <= |records|
  {
    if records == [] then []
    else
      var last := records[|records| - 1];
      Kept(records[..|records| - 1], rejected) +
      (if last.None? || |records| in rejected then [] else [last.value])
  }

  /** The records of lines `1 .. n - 1` that were inserted, in line order. */
  function InsertedRows(lines: seq<string>, n: nat, syncTimestamp: string, rejected: set<nat>,
                        intOfFloat: string -> IntConversion, parseFloat: string -> Option<real>)
    : (table: seq<InsertRecord>)
    requires 1 <= n <= |lines|
    ensures |table| <= n - 1
  {
    Kept(LineRecords(lines, n, syncTimestamp, intOfFloat, parseFloat), rejected)
  }

  /** A further line adds its record unless its mapping raised or its insert was refused. */
  lemma KeptStep<T>(records: seq<Option<T>>, record: Option<T>, rejected: set<nat>)
    ensures Kept(records + [record], rejected) ==
      Kept(records, rejected) + (if record.None? || |records| + 1 in rejected then [] else [record.value])
  {
    assert (records + [record])[..|records|] == records;
  }

  /** Everything `parse_and_insert_data` inserts: nothing without a data line. */
  function ParsedRecords(lines: seq<string>, syncTimestamp: string, rejected: set<nat>,
                         intOfFloat: string -> IntConversion, parseFloat: string -> Option<real>)
    : (table: seq<InsertRecord>)
    ensures |lines| < 2 ==> table == []
    ensures |lines| >= 2 ==> |table| <= |lines| - 1
  {
    if |lines| < 2 then [] else InsertedRows(lines, |lines|, syncTimestamp, rejected, intOfFloat, parseFloat)
  }

  /** The padding loop of `parse_and_insert_data`: append `''` until the row is as wide as the header. */
  method PadRow(cells: seq<string>, width: nat) returns (rowData: seq<string>)
    ensures rowData == Pad(cells, width)
  {
    rowData := cells;
    while |rowData| < width
      invariant |cells| <= |rowData|
      invariant |rowData| <= width || |rowData| == |cells|
      invariant rowData == cells + seq(|rowData| - |cells|, _ => "")
      decreases width - |rowData|
    {
      rowData := rowData + [""];
    }
  }

  /**
   * `parse_and_insert_data`: each data line is split on tabs, padded to the
   * header's width and mapped; a line whose mapping or insert raises is
   * skipped and the others go on. The inserted records are appended to
   * `inserted` and counted in `insertedCount`.
   */
  method ParseAndInsertData(lines: seq<string>, syncTimestamp: string, rejected: set<nat>,
                            intOfFloat: string -> IntConversion, parseFloat: string -> Option<real>)
    returns (inserted: seq<InsertRecord>, insertedCount: nat)
    ensures inserted == ParsedRecords(lines, syncTimestamp, rejected, intOfFloat, parseFloat)
    ensures insertedCount == |inserted|
  {
    inserted, insertedCount := [], 0;
    if |lines| < 2 {
      return;
    }
    var header := Split(lines[0], '\t');
    ghost var records: seq<Option<InsertRecord>> := [];
    for i := 1 to |lines|
      invariant records == LineRecords(lines, i, syncTimestamp, intOfFloat, parseFloat)
      invariant inserted == Kept(records, rejected)
      invariant insertedCount == |inserted|
    {
      var rowData := Split(lines[i], '\t');
      rowData := PadRow(rowData, |header|);
      var record := MapRow(rowData, syncTimestamp, intOfFloat, parseFloat);
      KeptStep(records, record, rejected);
      records := records + [record];
      if record.None? {
        continue;
      }
      if i in rejected {
        continue;
      }
      inserted := inserted + [record.value];
      insertedCount := insertedCount + 1;
    }
  }

  // ---------------------------------------------------------------------
  // What an import promises
  // ---------------------------------------------------------------------

  /**
   * Every kept record is the record of a line that mapped and whose insert
   * was not refused: a line that raised is skipped.
   */
  lemma {:induction false} KeptFrom<T>(records: seq<Option<T>>, rejected: set<nat>)
    ensures forall x :: x in Kept(records, rejected) ==>
      exists k :: 0 <= k < |records| && records[k] == Some(x) && k + 1 !in rejected
  {
    if records != [] {
      var front := records[..|records| - 1];
      KeptFrom(front, rejected);
      forall x | x in Kept(records, rejected)
        ensures exists k :: 0 <= k < |records| && records[k] == Some(x) && k + 1 !in rejected
      {
        if x in Kept(front, rejected) {
          var k :| 0 <= k < |front| && front[k] == Some(x) && k + 1 !in rejected;
          assert records[k] == front[k];
        } else {
          assert records[|records| - 1] == Some(x) && |records| !in rejected;
        }
      }
    }
  }

  /** Every record whose line was mapped and not refused is kept. */
  lemma {:induction false} KeptIncludes<T>(records: seq<Option<T>>, rejected: set<nat>)
    ensures forall k :: 0 <= k < |records| && records[k].Some? && k + 1 !in rejected ==>
      records[k].value in Kept(records, rejected)
  {
    if records != [] {
      var front := records[..|records| - 1];
      KeptIncludes(front, rejected);
      forall k | 0 <= k < |records| - 1
        ensures records[k] == front[k]
      {
      }
    }
  }

  /** With no refusal and no failed mapping, every per-line record is kept. */
  lemma {:induction false} KeptAll<T>(records: seq<Option<T>>)
    requires forall k :: 0 <= k < |records| ==> records[k].Some?
    ensures |Kept(records, {})| == |records|
  {
    if records != [] {
      KeptAll(records[..|records| - 1]);
    }
  }

  /** More refusals only remove records: the kept ones are a subsequence of those kept with fewer. */
  lemma {:induction false} KeptMonotone<T>(records: seq<Option<T>>, rejected: set<nat>, moreRejected: set<nat>)
    requires rejected <= moreRejected
    ensures Subsequence(Kept(records, moreRejected), Kept(records, rejected))
  {
    if records == [] {
      SubsequenceRefl<T>([]);
    } else {
      var front := records[..|records| - 1];
      var last := records[|records| - 1];
      KeptMonotone(front, rejected, moreRejected);
      var b: seq<T> := if last.None? || |records| in rejected then [] else [last.value];
      var a: seq<T> := if last.None? || |records| in moreRejected then [] else [last.value];
      SubsequenceAppend(Kept(front, moreRejected), Kept(front, rejected), a, b);
    }
  }

  /** All records of one import carry the same sync timestamp. */
  lemma SharedTimestamp(lines: seq<string>, n: nat, syncTimestamp: string, rejected: set<nat>,
                        intOfFloat: string -> IntConversion, parseFloat: string -> Option<real>)
    requires 1 <= n <= |lines|
    ensures forall r :: r in InsertedRows(lines, n, syncTimestamp, rejected, intOfFloat, parseFloat) ==>
      r.syncTimestamp == syncTimestamp
  {
    var records := LineRecords(lines, n, syncTimestamp, intOfFloat, parseFloat);
    var width := |Split(lines[0], '\t')|;
    MapLinesAt(lines, n, line => LineRecord(width, line, syncTimestamp, intOfFloat, parseFloat));
    KeptFrom(records, rejected);
    forall r | r in InsertedRows(lines, n, syncTimestamp, rejected, intOfFloat, parseFloat)
      ensures r.syncTimestamp == syncTimestamp
    {
      var k :| 0 <= k < |records| && records[k] == Some(r);
      MapRowFields(Pad(Split(lines[k + 1], '\t'), width), syncTimestamp, intOfFloat, parseFloat);
    }
  }

  /**
   * A failing line never stops the import: every later or earlier line that
   * maps and whose insert is accepted is in the table.
   */
  lemma OtherLinesGoOn(lines: seq<string>, n: nat, syncTimestamp: string, rejected: set<nat>,
                       intOfFloat: string -> IntConversion, parseFloat: string -> Option<real>)
    requires 1 <= n <= |lines|
    ensures forall i ::
      (1 <= i < n && i !in rejected &&
       LineRecord(|Split(lines[0], '\t')|, lines[i], syncTimestamp, intOfFloat, parseFloat).Some?) ==>
        LineRecord(|Split(lines[0], '\t')|, lines[i], syncTimestamp, intOfFloat, parseFloat).value
          in InsertedRows(lines, n, syncTimestamp, rejected, intOfFloat, parseFloat)
  {
    var records := LineRecords(lines, n, syncTimestamp, intOfFloat, parseFloat);
    var width := |Split(lines[0], '\t')|;
    MapLinesAt(lines, n, line => LineRecord(width, line, syncTimestamp, intOfFloat, parseFloat));
    KeptIncludes(records, rejected);
    forall i | 1 <= i < n && i !in rejected && LineRecord(width, lines[i], syncTimestamp, intOfFloat, parseFloat).Some?
      ensures records[i - 1].Some? && records[i - 1].value in Kept(records, rejected)
    {
    }
  }

  /**
   * Only lines that mapped and whose insert was accepted reach the table:
   * every inserted record is the record of such a line.
   */
  lemma LinesThatRaiseAreSkipped(lines: seq<string>, n: nat, syncTimestamp: string, rejected: set<nat>,
                                 intOfFloat: string -> IntConversion, parseFloat: string -> Option<real>)
    requires 1 <= n <= |lines|
    ensures forall r :: r in InsertedRows(lines, n, syncTimestamp, rejected, intOfFloat, parseFloat) ==>
      exists i :: 1 <= i < n && i !in rejected &&
        LineRecord(|Split(lines[0], '\t')|, lines[i], syncTimestamp, intOfFloat, parseFloat) == Some(r)
  {
    var records := LineRecords(lines, n, syncTimestamp, intOfFloat, parseFloat);
    var width := |Split(lines[0], '\t')|;
    MapLinesAt(lines, n, line => LineRecord(width, line, syncTimestamp, intOfFloat, parseFloat));
    KeptFrom(records, rejected);
    forall r | r in InsertedRows(lines, n, syncTimestamp, rejected, intOfFloat, parseFloat)
      ensures exists i :: 1 <= i < n && i !in rejected &&
                          LineRecord(width, lines[i], syncTimestamp, intOfFloat, parseFloat) == Some(r)
    {
      var k :| 0 <= k < |records| && records[k] == Some(r) && k + 1 !in rejected;
      assert LineRecord(width, lines[k + 1], syncTimestamp, intOfFloat, parseFloat) == Some(r);
    }
  }

  /**
   * When no insert is refused and no sales cell overflows, every data line
   * gives exactly one record.
   */
  lemma EveryLineInserted(lines: seq<string>, n: nat, syncTimestamp: string,
                          intOfFloat: string -> IntConversion, parseFloat: string -> Option<real>)
    requires 1 <= n <= |lines|
    requires forall s :: !intOfFloat(s).Overflow?
    ensures |InsertedRows(lines, n, syncTimestamp, {}, intOfFloat, parseFloat)| == n - 1
  {
    var records := LineRecords(lines, n, syncTimestamp, intOfFloat, parseFloat);
    var width := |Split(lines[0], '\t')|;
    MapLinesAt(lines, n, line => LineRecord(width, line, syncTimestamp, intOfFloat, parseFloat));
    forall k | 0 <= k < |records|
      ensures records[k].Some?
    {
      MapRowFields(Pad(Split(lines[k + 1], '\t'), width), syncTimestamp, intOfFloat, parseFloat);
    }
    KeptAll(records);
  }

  /**
   * More refused inserts only remove records: the table is a subsequence of
   * the one with fewer refusals, so a failing line never disturbs the
   * others.
   */
  lemma MoreFailuresFewerRows(lines: seq<string>, n: nat, syncTimestamp: string,
                              rejected: set<nat>, moreRejected: set<nat>,
                              intOfFloat: string -> IntConversion, parseFloat: string -> Option<real>)
    requires 1 <= n <= |lines|
    requires rejected <= moreRejected
    ensures Subsequence(InsertedRows(lines, n, syncTimestamp, moreRejected, intOfFloat, parseFloat),
                        InsertedRows(lines, n, syncTimestamp, rejected, intOfFloat, parseFloat))
  {
    KeptMonotone(LineRecords(lines, n, syncTimestamp, intOfFloat, parseFloat), rejected, moreRejected);
  }

  /** Appending `a` to a subsequence and `b` to its source keeps it one, when `a` is empty or equal to `b`. */
  lemma {:induction false} SubsequenceAppend<T>(t: seq<T>, s: seq<T>, a: seq<T>, b: seq<T>)
    requires Subsequence(t, s)
    requires a == [] || a == b
    ensures Subsequence(t + a, s + b)
    decreases |s|
  {
    if a == [] {
      assert t + a == t;
      SubsequenceOfPrefix(t, s, b);
    } else if t == [] {
      SubsequenceRefl(b);
      assert t + a == b;
      SubsequenceOfSuffix(b, s, b);
    } else if s == [] {
    } else if t[0] == s[0] {
      assert (t + a)[1..] == t[1..] + a && (s + b)[1..] == s[1..] + b;
      SubsequenceAppend(t[1..], s[1..], a, b);
    } else {
      assert (s + b)[1..] == s[1..] + b;
      SubsequenceAppend(t, s[1..], a, b);
    }
  }

  /** A subsequence of `s` is one of `s + b`. */
  lemma {:induction false} SubsequenceOfPrefix<T>(t: seq<T>, s: seq<T>, b: seq<T>)
    requires Subsequence(t, s)
    ensures Subsequence(t, s + b)
    decreases |s|
  {
    if t != [] {
      assert (s + b)[1..] == s[1..] + b;
      if t[0] == s[0] {
        SubsequenceOfPrefix(t[1..], s[1..], b);
      } else {
        SubsequenceOfPrefix(t, s[1..], b);
      }
    }
  }

  /** A subsequence of `b` is one of `s + b`. */
  lemma {:induction false} SubsequenceOfSuffix<T>(t: seq<T>, s: seq<T>, b: seq<T>)
    requires Subsequence(t, b)
    ensures Subsequence(t, s + b)
    decreases |s|
  {
    if s != [] {
      assert (s + b)[1..] == s[1..] + b;
      SubsequenceOfSuffix(t, s[1..], b);
      SubsequenceDropHead(t, s + b);
    } else {
      assert s + b == b;
    }
  }
}

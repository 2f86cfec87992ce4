/**
 * `getRoomDetails` (src/services/apiService.js): split the room identifier
 * at its first dash, keep the rows of exactly that project code and unit
 * number, and build the room header and the numbered item list.
 */
module RoomDetailResolver {
  import opened Wrappers
  import opened Strings
  import opened Records
  import opened Sequences
  import RecordSource

  // ---------------------------------------------------------------------
  // The identifier
  // ---------------------------------------------------------------------

  /**
   * `roomNumber.split('-')`: the project code is the first piece and the
   * unit number the other pieces joined back with `-`; `None` when there
   * is no dash.
   */
  function ParseRoomNumber(roomNumber: string): Option<(string, string)> {
    var roomParts := Split(roomNumber, '-');
    if |roomParts| < 2 then None
    else Some((roomParts[0], Join(roomParts[1..], "-")))
  }

  /**
   * An identifier parses exactly when it has a dash; the project code is the
   * text before the first dash and the unit number everything after it, so
   * the two joined with `-` give back the identifier.
   */
  lemma ParseAtFirstDash(roomNumber: string)
    ensures ParseRoomNumber(roomNumber).None? <==> '-' !in roomNumber
    ensures ParseRoomNumber(roomNumber).Some? ==>
      var (projectCode, unitNo) := ParseRoomNumber(roomNumber).value;
      var i := IndexOf(roomNumber, '-');
      projectCode == roomNumber[..i] && unitNo == roomNumber[i + 1..] &&
      '-' !in projectCode && projectCode + "-" + unitNo == roomNumber
  {
    if '-' in roomNumber {
      SplitAtFirst(roomNumber, '-');
      var i := IndexOf(roomNumber, '-');
      assert roomNumber == roomNumber[..i] + "-" + roomNumber[i + 1..];
    }
  }

  /** Formatting a dash-free project code with any unit number parses back to the two. */
  lemma ParseFormatRoundTrip(projectCode: string, unitNo: string)
    requires '-' !in projectCode
    ensures ParseRoomNumber(projectCode + "-" + unitNo) == Some((projectCode, unitNo))
  {
    var id := projectCode + "-" + unitNo;
    IndexOfAfterPrefix(projectCode, '-', unitNo);
    assert id == projectCode + ['-'] + unitNo;
    ParseAtFirstDash(id);
    assert id[..|projectCode|] == projectCode;
    assert id[|projectCode| + 1..] == unitNo;
  }

  /** `"SKWG2-B1-308"` is project `SKWG2`, unit `B1-308`; `"ABC"` does not parse. */
  lemma ParseExamples()
    ensures ParseRoomNumber("SKWG2-B1-308") == Some(("SKWG2", "B1-308"))
    ensures ParseRoomNumber("ABC") == None
  {
    ParseFormatRoundTrip("SKWG2", "B1-308");
    ExampleIdentifier();
    ParseAtFirstDash("ABC");
  }

  /** The example identifier is its project code and unit number joined by `-`. */
  lemma ExampleIdentifier()
    ensures "SKWG2" + "-" + "B1-308" == "SKWG2-B1-308"
  {
  }

  // ---------------------------------------------------------------------
  // The rows of a room and their items
  // ---------------------------------------------------------------------

  /** `itemProjectCode === projectCode && itemUnitNo === unitNo`. */
  predicate InRoom(r: RawRecord, projectCode: string, unitNo: string) {
    r.projectCode == projectCode && r.unitNo == unitNo
  }

  /** `allData.filter(...)`: the rows of the room, in input order. */
  function RoomRows(allData: seq<RawRecord>, projectCode: string, unitNo: string): (rows: seq<RawRecord>)
    ensures forall r :: r in rows <==> r in allData && InRoom(r, projectCode, unitNo)
    ensures Subsequence(rows, allData)
  {
    if allData == [] then []
    else
      var rest := RoomRows(allData[1..], projectCode, unitNo);
      if InRoom(allData[0], projectCode, unitNo) then
        [allData[0]] + rest
      else
        SubsequenceDropHead(rest, allData);
        rest
  }

  /**
   * The filter keeps every matching row as often as it occurs and drops
   * every other row.
   */
  lemma {:induction false} RoomRowsCounts(allData: seq<RawRecord>, projectCode: string, unitNo: string)
    ensures forall x :: multiset(RoomRows(allData, projectCode, unitNo))[x] ==
                        if InRoom(x, projectCode, unitNo) then multiset(allData)[x] else 0
  {
    if allData != [] {
      RoomRowsCounts(allData[1..], projectCode, unitNo);
      assert allData == [allData[0]] + allData[1..];
    }
  }

  /** The item built from a row: its descriptive fields and the id `roomNumber-index`. */
  function ToItem(r: RawRecord, roomNumber: string, index: nat): DetailItem {
    DetailItem(r.itemsGroup, r.productDetail, r.color, r.roomType, r.installPoint,
               r.installDate, r.brand, r.installStatus, roomNumber + "-" + NatToDecimal(index))
  }

  /** `roomData.map((item, index) => ...)`. */
  function ToItems(rows: seq<RawRecord>, roomNumber: string): (items: seq<DetailItem>)
    ensures |items| == |rows|
  {
    seq(|rows|, i requires 0 <= i < |rows| => ToItem(rows[i], roomNumber, i))
  }

  /**
   * What `getRoomDetails` returns once it has the rows: no room for an
   * empty identifier, one without a dash, or one that matches no row;
   * otherwise the header from the first matching row and one item per
   * matching row.
   */
  function ResolveRoom(roomNumber: string, allData: seq<RawRecord>): RoomDetails {
    if roomNumber == "" then NoRoom
    else match ParseRoomNumber(roomNumber)
      case None => NoRoom
      case Some((projectCode, unitNo)) =>
        var roomData := RoomRows(allData, projectCode, unitNo);
        if |roomData| == 0 then NoRoom
        else
          var firstItem := roomData[0];
          var roomInfo := RoomInfo(firstItem.projectCode + "-" + firstItem.unitNo,
                                   firstItem.contactName, firstItem.houseNumber);
          RoomDetails(Some(roomInfo), ToItems(roomData, roomNumber))
  }

  /**
   * `getRoomDetails`: no fetch at all for an empty identifier or one
   * without a dash; otherwise the rows come from `fetchData('/data',
   * { limit: 1000 })`, whose failure propagates as the error.
   */
  function GetRoomDetails(roomNumber: string, outcome: RecordSource.Outcome<RecordSource.DataBody>)
    : (r: Result<RoomDetails, string>)
    ensures roomNumber == "" || '-' !in roomNumber ==> r == Ok(NoRoom)
    ensures roomNumber != "" && '-' in roomNumber ==>
      (r.Err? <==> RecordSource.FetchData(outcome).Err?)
    ensures r.Ok? && roomNumber != "" && '-' in roomNumber ==>
      r.value == ResolveRoom(roomNumber, RecordSource.RowsOf(RecordSource.FetchData(outcome).value))
  {
    ParseAtFirstDash(roomNumber);
    if roomNumber == "" then Ok(NoRoom)
    else if ParseRoomNumber(roomNumber).None? then Ok(NoRoom)
    else match RecordSource.FetchData(outcome)
      case Err(e) => Err(e)
      case Ok(response) => Ok(ResolveRoom(roomNumber, RecordSource.RowsOf(response)))
  }

  // ---------------------------------------------------------------------
  // What the resolver promises
  // ---------------------------------------------------------------------

  /** The room is not found exactly when the identifier is empty, has no dash, or matches no row. */
  lemma NotFoundCases(roomNumber: string, allData: seq<RawRecord>)
    ensures ResolveRoom(roomNumber, allData) == NoRoom <==>
      roomNumber == "" || '-' !in roomNumber ||
      forall r :: r in allData ==> !InRoom(r, ParseRoomNumber(roomNumber).value.0, ParseRoomNumber(roomNumber).value.1)
  {
    ParseAtFirstDash(roomNumber);
    if roomNumber != "" && '-' in roomNumber {
      var (projectCode, unitNo) := ParseRoomNumber(roomNumber).value;
      var roomData := RoomRows(allData, projectCode, unitNo);
      if |roomData| > 0 {
        assert roomData[0] in roomData;
      }
    }
  }

  /**
   * A found room: the header names the identifier itself and takes the
   * customer and address from the first matching row; the items are the
   * matching rows in input order, item `i` carrying row `i`'s fields and the
   * id `identifier-i`.
   */
  lemma FoundRoom(roomNumber: string, allData: seq<RawRecord>)
    requires ResolveRoom(roomNumber, allData) != NoRoom
    ensures '-' in roomNumber
    ensures var (projectCode, unitNo) := ParseRoomNumber(roomNumber).value;
      var roomData := RoomRows(allData, projectCode, unitNo);
      var details := ResolveRoom(roomNumber, allData);
      |roomData| > 0 &&
      details.roomInfo == Some(RoomInfo(roomNumber, roomData[0].contactName, roomData[0].houseNumber)) &&
      |details.items| == |roomData| &&
      forall i :: 0 <= i < |roomData| ==>
        details.items[i] == ToItem(roomData[i], roomNumber, i) &&
        details.items[i].id == roomNumber + "-" + NatToDecimal(i)
  {
    ParseAtFirstDash(roomNumber);
    var (projectCode, unitNo) := ParseRoomNumber(roomNumber).value;
    var roomData := RoomRows(allData, projectCode, unitNo);
    assert roomData[0] in roomData;
  }

  /** Different positions give different item ids. */
  lemma ItemIdsDistinct(roomNumber: string, allData: seq<RawRecord>)
    ensures var items := ResolveRoom(roomNumber, allData).items;
      forall i, j :: 0 <= i < j < |items| ==> items[i].id != items[j].id
  {
    var items := ResolveRoom(roomNumber, allData).items;
    forall i, j | 0 <= i < j < |items|
      ensures items[i].id != items[j].id
    {
      ParseAtFirstDash(roomNumber);
      var prefix := roomNumber + "-";
      assert items[i].id == prefix + NatToDecimal(i);
      assert items[j].id == prefix + NatToDecimal(j);
      DecimalRoundTrip(i);
      DecimalRoundTrip(j);
      assert (prefix + NatToDecimal(i))[|prefix|..] == NatToDecimal(i);
      assert (prefix + NatToDecimal(j))[|prefix|..] == NatToDecimal(j);
    }
  }

  /**
   * The match is on the parsed parts as they are, with no check that they
   * are non-empty: `"-U"` finds the rows with an empty project code and
   * unit `U`, and `"P-"` those of project `P` with an empty unit number.
   */
  lemma EmptyPartsStillMatch()
    ensures var r := RawRecord("", "U", "C", "H", "", "", "", "", "", "", "", "");
      ResolveRoom("-U", [r]) == RoomDetails(Some(RoomInfo("-U", "C", "H")), [ToItem(r, "-U", 0)])
    ensures var r := RawRecord("P", "", "C", "H", "", "", "", "", "", "", "", "");
      ResolveRoom("P-", [r]) == RoomDetails(Some(RoomInfo("P-", "C", "H")), [ToItem(r, "P-", 0)])
  {
    EmptyPartIdentifiers();
    SingleMatchingRow("", "U", RawRecord("", "U", "C", "H", "", "", "", "", "", "", "", ""));
    SingleMatchingRow("P", "", RawRecord("P", "", "C", "H", "", "", "", "", "", "", "", ""));
  }

  /** The identifiers of the two examples, written out. */
  lemma EmptyPartIdentifiers()
    ensures "" + "-" + "U" == "-U" && "P" + "-" + "" == "P-"
  {
  }

  /** A room whose one row matches is that row's header and its one item. */
  lemma SingleMatchingRow(projectCode: string, unitNo: string, r: RawRecord)
    requires '-' !in projectCode && r.projectCode == projectCode && r.unitNo == unitNo
    ensures var id := projectCode + "-" + unitNo;
      ResolveRoom(id, [r]) == RoomDetails(Some(RoomInfo(id, r.contactName, r.houseNumber)), [ToItem(r, id, 0)])
  {
    var id := projectCode + "-" + unitNo;
    ParseFormatRoundTrip(projectCode, unitNo);
    assert id[|projectCode|] == '-';
    assert [r][1..] == [];
    assert RoomRows([r], projectCode, unitNo) == [r];
  }
}

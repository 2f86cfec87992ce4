/**
 * `transformToReportData`: raw rows to one summary per room, first row wins,
 * then sorted with the list's two-tier comparator.
 */
module ReportTransform {
  import opened Records
  import opened Strings

  // ---------------------------------------------------------------------
  // Room keys and summaries
  // ---------------------------------------------------------------------

  /** A row belongs to a room only when both parts of the room key are non-empty. */
  predicate HasRoomKey(r: RawRecord) {
    r.projectCode != "" && r.unitNo != ""
  }

  /** The room identifier `projectCode-unitNo`. */
  function RoomNumberOf(r: RawRecord): string {
    r.projectCode + "-" + r.unitNo
  }

  /** The list entry built from a room's first row; the colour entry is always empty. */
  function Summarize(r: RawRecord): RoomSummary {
    var roomNumber := RoomNumberOf(r);
    RoomSummary(roomNumber, r.contactName, r.houseNumber, r.productDetail, "",
                r.roomType, r.installPoint, r.installDate, roomNumber)
  }

  /** The room numbers listed in `s`. */
  function RoomNumbers(s: seq<RoomSummary>): set<string> {
    set x | x in s :: x.roomNumber
  }

  /** The room numbers of the rows of `raw` that have a room key. */
  function KeyedRoomNumbers(raw: seq<RawRecord>): set<string> {
    set r | r in raw && HasRoomKey(r) :: RoomNumberOf(r)
  }

  /** Row `r` has a room key and its room number is `roomNumber`. */
  predicate IsRowOf(r: RawRecord, roomNumber: string) {
    HasRoomKey(r) && RoomNumberOf(r) == roomNumber
  }

  /** Index of the first row of room `roomNumber`, or `|raw|` when there is none. */
  function FirstRowOf(raw: seq<RawRecord>, roomNumber: string): (j: nat)
    ensures j <= |raw|
    ensures j < |raw| ==> IsRowOf(raw[j], roomNumber)
    ensures forall i :: 0 <= i < j ==> !IsRowOf(raw[i], roomNumber)
  {
    if raw == [] then 0
    else if IsRowOf(raw[0], roomNumber) then 0
    else 1 + FirstRowOf(raw[1..], roomNumber)
  }

  /**
   * The summaries the loop of `transformToReportData` pushes: one per room
   * key, built from the first row of that room, in order of first appearance.
   */
  function Dedup(raw: seq<RawRecord>): (d: seq<RoomSummary>)
    ensures |d| <= |raw|
  {
    if raw == [] then []
    else
      var d := Dedup(raw[..|raw| - 1]);
      var r := raw[|raw| - 1];
      if HasRoomKey(r) && RoomNumberOf(r) !in RoomNumbers(d) then d + [Summarize(r)] else d
  }

  // ---------------------------------------------------------------------
  // What the deduplication promises
  // ---------------------------------------------------------------------

  /** The rooms listed are exactly the room numbers of the keyed rows. */
  lemma {:induction false} DedupRooms(raw: seq<RawRecord>)
    ensures RoomNumbers(Dedup(raw)) == KeyedRoomNumbers(raw)
  {
    if raw != [] {
      var front := raw[..|raw| - 1];
      var r := raw[|raw| - 1];
      DedupRooms(front);
      assert raw == front + [r];
      var d := Dedup(front);
      if HasRoomKey(r) && RoomNumberOf(r) !in RoomNumbers(d) {
        assert RoomNumbers(d + [Summarize(r)]) == RoomNumbers(d) + {RoomNumberOf(r)};
      }
      assert KeyedRoomNumbers(raw) == KeyedRoomNumbers(front) + (if HasRoomKey(r) then {RoomNumberOf(r)} else {});
    }
  }

  /** A list whose room numbers are pairwise distinct. */
  predicate DistinctRooms(s: seq<RoomSummary>) {
    forall i, j :: 0 <= i < j < |s| ==> s[i].roomNumber != s[j].roomNumber
  }

  /** No room number is listed twice. */
  lemma {:induction false} DedupDistinct(raw: seq<RawRecord>)
    ensures DistinctRooms(Dedup(raw))
  {
    if raw != [] {
      var front := raw[..|raw| - 1];
      DedupDistinct(front);
      var d := Dedup(front);
      var r := raw[|raw| - 1];
      if HasRoomKey(r) && RoomNumberOf(r) !in RoomNumbers(d) {
        var e := d + [Summarize(r)];
        forall i, j | 0 <= i < j < |e|
          ensures e[i].roomNumber != e[j].roomNumber
        {
          if j == |d| {
            assert e[i] in d;
          }
        }
      }
    }
  }

  /** Each listed entry is the summary of the first row of its room. */
  predicate FirstWins(raw: seq<RawRecord>, d: seq<RoomSummary>) {
    forall k :: 0 <= k < |d| ==>
      FirstRowOf(raw, d[k].roomNumber) < |raw| &&
      d[k] == Summarize(raw[FirstRowOf(raw, d[k].roomNumber)])
  }

  /** Each listed room is the summary of the first row of that room (first write wins). */
  lemma {:induction false} DedupFirstWins(raw: seq<RawRecord>)
    ensures FirstWins(raw, Dedup(raw))
  {
    if raw != [] {
      var front := raw[..|raw| - 1];
      var r := raw[|raw| - 1];
      assert raw == front + [r];
      DedupFirstWins(front);
      DedupRooms(front);
      var d := Dedup(front);
      var e := Dedup(raw);
      forall k | 0 <= k < |e|
        ensures FirstRowOf(raw, e[k].roomNumber) < |raw|
        ensures e[k] == Summarize(raw[FirstRowOf(raw, e[k].roomNumber)])
      {
        if k < |d| {
          assert e[k] == d[k];
          FirstRowStable(front, r, d[k].roomNumber);
        } else {
          NewRoomFirstRow(front, r);
        }
      }
    }
  }

  /** Appending a row does not move the first row of a room that already had one. */
  lemma FirstRowStable(front: seq<RawRecord>, r: RawRecord, roomNumber: string)
    requires FirstRowOf(front, roomNumber) < |front|
    ensures FirstRowOf(front + [r], roomNumber) == FirstRowOf(front, roomNumber)
  {
    var raw := front + [r];
    var j := FirstRowOf(front, roomNumber);
    assert raw[j] == front[j];
    assert forall i :: 0 <= i < j ==> raw[i] == front[i];
  }

  /** The first row of a room not seen before is the row just appended. */
  lemma NewRoomFirstRow(front: seq<RawRecord>, r: RawRecord)
    requires HasRoomKey(r) && RoomNumberOf(r) !in KeyedRoomNumbers(front)
    ensures FirstRowOf(front + [r], RoomNumberOf(r)) == |front|
  {
    var raw := front + [r];
    var rn := RoomNumberOf(r);
    forall i | 0 <= i < |front|
      ensures !IsRowOf(raw[i], rn)
    {
      assert raw[i] == front[i] && front[i] in front;
    }
    assert IsRowOf(raw[|front|], rn);
  }

  /**
   * A row without a room key, or a later row of a room already seen,
   * contributes nothing: removing it leaves the summaries unchanged.
   */
  lemma {:induction false} DedupIgnoresRow(a: seq<RawRecord>, r: RawRecord, b: seq<RawRecord>)
    requires !HasRoomKey(r) || RoomNumberOf(r) in KeyedRoomNumbers(a)
    ensures Dedup(a + [r] + b) == Dedup(a + b)
    decreases |b|
  {
    if b == [] {
      assert a + [r] + b == a + [r];
      assert (a + [r])[..|a|] == a;
      assert a + b == a;
      DedupRooms(a);
    } else {
      var b' := b[..|b| - 1];
      var x := b[|b| - 1];
      DedupIgnoresRow(a, r, b');
      assert (a + [r] + b)[..|a + [r] + b| - 1] == a + [r] + b';
      assert (a + b)[..|a + b| - 1] == a + b';
    }
  }

  // ---------------------------------------------------------------------
  // The comparator and the sort
  // ---------------------------------------------------------------------

  /**
   * The comparator handed to `sort`: when both entries have a date, the
   * later date first (`dateKey` is the parsed date); otherwise room number
   * ascending. Negative means `a` goes first.
   */
  function Compare(dateKey: string -> int, a: RoomSummary, b: RoomSummary): int {
    if a.installedDate != "" && b.installedDate != "" then
      dateKey(b.installedDate) - dateKey(a.installedDate)
    else LexCompare(a.roomNumber, b.roomNumber)
  }

  /** Places `x` before the first entry it may precede. */
  function Insert(dateKey: string -> int, x: RoomSummary, s: seq<RoomSummary>): (r: seq<RoomSummary>)
    ensures multiset(r) == multiset(s) + multiset{x}
  {
    if s == [] then [x]
    else if Compare(dateKey, x, s[0]) <= 0 then [x] + s
    else
      var t := Insert(dateKey, x, s[1..]);
      assert s == [s[0]] + s[1..];
      [s[0]] + t
  }

  /** A stable insertion sort with `Compare`; it stands for `Array.prototype.sort`. */
  function SortSummaries(dateKey: string -> int, s: seq<RoomSummary>): (r: seq<RoomSummary>)
    ensures multiset(r) == multiset(s)
  {
    if s == [] then []
    else
      var t := SortSummaries(dateKey, s[1..]);
      assert s == [s[0]] + s[1..];
      Insert(dateKey, s[0], t)
  }

  /** Every entry may precede every later one. */
  predicate Sorted(dateKey: string -> int, s: seq<RoomSummary>) {
    forall i, j :: 0 <= i < j < |s| ==> Compare(dateKey, s[i], s[j]) <= 0
  }

  predicate AllDated(s: seq<RoomSummary>) {
    forall x :: x in s ==> x.installedDate != ""
  }

  predicate NoneDated(s: seq<RoomSummary>) {
    forall x :: x in s ==> x.installedDate == ""
  }

  /** The comparator uses one key for the whole list: all dates, or no dates. */
  predicate OneKey(s: seq<RoomSummary>) {
    AllDated(s) || NoneDated(s)
  }

  /** Swapping the entries negates the comparator. */
  lemma CompareFlip(dateKey: string -> int, a: RoomSummary, b: RoomSummary)
    ensures Compare(dateKey, a, b) == -Compare(dateKey, b, a)
  {
    LexCompareFlip(a.roomNumber, b.roomNumber);
  }

  /** With one key for all three entries, "may precede" is transitive. */
  lemma CompareTransitive(dateKey: string -> int, a: RoomSummary, b: RoomSummary, c: RoomSummary)
    requires OneKey([a, b, c])
    requires Compare(dateKey, a, b) <= 0 && Compare(dateKey, b, c) <= 0
    ensures Compare(dateKey, a, c) <= 0
  {
    assert a in [a, b, c] && b in [a, b, c] && c in [a, b, c];
    if NoneDated([a, b, c]) {
      LexCompareTransitive(a.roomNumber, b.roomNumber, c.roomNumber);
    }
  }

  /** An entry that may precede every entry of a sorted list may go in front of it. */
  lemma PrependSorted(dateKey: string -> int, a: RoomSummary, t: seq<RoomSummary>)
    requires Sorted(dateKey, t)
    requires forall j :: 0 <= j < |t| ==> Compare(dateKey, a, t[j]) <= 0
    ensures Sorted(dateKey, [a] + t)
  {
    var r := [a] + t;
    forall i, j | 0 <= i < j < |r|
      ensures Compare(dateKey, r[i], r[j]) <= 0
    {
      assert r[j] == t[j - 1];
      if i > 0 {
        assert r[i] == t[i - 1];
      }
    }
  }

  /** `x` may precede the head of a sorted list, so it may precede all of it. */
  lemma FrontPrecedesAll(dateKey: string -> int, x: RoomSummary, s: seq<RoomSummary>)
    requires Sorted(dateKey, s) && s != []
    requires OneKey([x] + s)
    requires Compare(dateKey, x, s[0]) <= 0
    ensures forall j :: 0 <= j < |s| ==> Compare(dateKey, x, s[j]) <= 0
  {
    var all := [x] + s;
    forall j | 1 <= j < |s|
      ensures Compare(dateKey, x, s[j]) <= 0
    {
      assert x == all[0] && s[0] == all[1] && s[j] == all[j + 1];
      assert OneKey([x, s[0], s[j]]);
      CompareTransitive(dateKey, x, s[0], s[j]);
    }
  }

  /** The head of a sorted list may precede everything after inserting a later `x` into its tail. */
  lemma HeadPrecedesInsert(dateKey: string -> int, x: RoomSummary, s: seq<RoomSummary>)
    requires Sorted(dateKey, s) && s != []
    requires Compare(dateKey, s[0], x) <= 0
    ensures forall j :: 0 <= j < |Insert(dateKey, x, s[1..])| ==> Compare(dateKey, s[0], Insert(dateKey, x, s[1..])[j]) <= 0
  {
    var t := Insert(dateKey, x, s[1..]);
    InsertMembers(dateKey, x, s[1..]);
    forall j | 0 <= j < |t|
      ensures Compare(dateKey, s[0], t[j]) <= 0
    {
      assert t[j] in t;
      if t[j] != x {
        var k :| 0 <= k < |s[1..]| && s[1..][k] == t[j];
        assert s[k + 1] == t[j];
      }
    }
  }

  /** Inserting into a sorted list keeps it sorted when one key serves all entries. */
  lemma {:induction false} InsertSorted(dateKey: string -> int, x: RoomSummary, s: seq<RoomSummary>)
    requires Sorted(dateKey, s)
    requires OneKey([x] + s)
    ensures Sorted(dateKey, Insert(dateKey, x, s))
  {
    if s == [] {
    } else if Compare(dateKey, x, s[0]) <= 0 {
      FrontPrecedesAll(dateKey, x, s);
      PrependSorted(dateKey, x, s);
    } else {
      var tail := s[1..];
      assert Sorted(dateKey, tail);
      assert OneKey([x] + tail) by {
        forall y | y in [x] + tail ensures y in [x] + s {
        }
      }
      InsertSorted(dateKey, x, tail);
      CompareFlip(dateKey, x, s[0]);
      HeadPrecedesInsert(dateKey, x, s);
      PrependSorted(dateKey, s[0], Insert(dateKey, x, tail));
    }
  }

  /** The sort yields a sorted list whenever one key serves all entries. */
  lemma {:induction false} SortSorted(dateKey: string -> int, s: seq<RoomSummary>)
    requires OneKey(s)
    ensures Sorted(dateKey, SortSummaries(dateKey, s))
  {
    if s != [] {
      var tail := s[1..];
      assert OneKey(tail) by {
        forall y | y in tail ensures y in s {
        }
      }
      SortSorted(dateKey, tail);
      var t := SortSummaries(dateKey, tail);
      assert OneKey([s[0]] + t) by {
        forall y | y in [s[0]] + t
          ensures y in s
        {
          if y != s[0] {
            assert y in multiset(t);
            assert y in multiset(tail);
          }
        }
      }
      InsertSorted(dateKey, s[0], t);
    }
  }

  // ---------------------------------------------------------------------
  // transformToReportData
  // ---------------------------------------------------------------------

  /** The room list `transformToReportData` returns for `raw`. */
  function ReportData(dateKey: string -> int, raw: seq<RawRecord>): seq<RoomSummary> {
    SortSummaries(dateKey, Dedup(raw))
  }

  /**
   * `transformToReportData`: walks the rows once with a set of room numbers
   * already seen, pushes a summary for each new keyed room, then sorts.
   */
  method TransformToReportData(dateKey: string -> int, rawData: seq<RawRecord>)
    returns (result: seq<RoomSummary>)
    ensures result == ReportData(dateKey, rawData)
  {
    var processedData: seq<RoomSummary> := [];
    var seenRooms: set<string> := {};
    for i := 0 to |rawData|
      invariant processedData == Dedup(rawData[..i])
      invariant seenRooms == RoomNumbers(processedData)
    {
      assert rawData[..i + 1][..i] == rawData[..i];
      var item := rawData[i];
      var projectCode := item.projectCode;
      var unitNo := item.unitNo;
      if projectCode == "" || unitNo == "" {
        continue;
      }
      var roomNumber := projectCode + "-" + unitNo;
      if roomNumber !in seenRooms {
        seenRooms := seenRooms + {roomNumber};
        processedData := processedData + [RoomSummary(
          roomNumber, item.contactName, item.houseNumber, item.productDetail, "",
          item.roomType, item.installPoint, item.installDate, roomNumber)];
      }
    }
    assert rawData[..|rawData|] == rawData;
    result := SortSummaries(dateKey, processedData);
  }

  /** Putting an entry of an unlisted room in front keeps the room numbers distinct. */
  lemma PrependDistinct(x: RoomSummary, s: seq<RoomSummary>)
    requires DistinctRooms(s)
    requires forall y :: y in s ==> y.roomNumber != x.roomNumber
    ensures DistinctRooms([x] + s)
  {
    var r := [x] + s;
    forall i, j | 0 <= i < j < |r|
      ensures r[i].roomNumber != r[j].roomNumber
    {
      assert r[j] == s[j - 1] && s[j - 1] in s;
      if i > 0 {
        assert r[i] == s[i - 1];
      }
    }
  }

  /** The entries of `Insert(x, s)` are `x` and the entries of `s`. */
  lemma InsertMembers(dateKey: string -> int, x: RoomSummary, s: seq<RoomSummary>)
    ensures forall y :: y in Insert(dateKey, x, s) <==> y == x || y in s
  {
    var r := Insert(dateKey, x, s);
    forall y
      ensures y in r <==> y == x || y in s
    {
      assert y in r <==> y in multiset(r);
      assert y in s <==> y in multiset(s);
    }
  }

  /** Inserting an entry whose room is not listed keeps the room numbers distinct. */
  lemma {:induction false} InsertDistinct(dateKey: string -> int, x: RoomSummary, s: seq<RoomSummary>)
    requires DistinctRooms(s)
    requires forall y :: y in s ==> y.roomNumber != x.roomNumber
    ensures DistinctRooms(Insert(dateKey, x, s))
  {
    if s == [] || Compare(dateKey, x, s[0]) <= 0 {
      PrependDistinct(x, s);
    } else {
      var tail := s[1..];
      assert DistinctRooms(tail);
      InsertDistinct(dateKey, x, tail);
      var t := Insert(dateKey, x, tail);
      InsertMembers(dateKey, x, tail);
      forall y | y in t
        ensures y.roomNumber != s[0].roomNumber
      {
        if y != x {
          var k :| 0 <= k < |tail| && tail[k] == y;
          assert s[k + 1] == y;
        }
      }
      PrependDistinct(s[0], t);
    }
  }

  /** Sorting a list with distinct room numbers keeps them distinct. */
  lemma {:induction false} SortDistinct(dateKey: string -> int, s: seq<RoomSummary>)
    requires DistinctRooms(s)
    ensures DistinctRooms(SortSummaries(dateKey, s))
  {
    if s != [] {
      var tail := s[1..];
      SortDistinct(dateKey, tail);
      var t := SortSummaries(dateKey, tail);
      forall y | y in t
        ensures y.roomNumber != s[0].roomNumber
      {
        assert y in multiset(t);
        assert y in multiset(tail);
        var k :| 0 <= k < |tail| && tail[k] == y;
        assert s[k + 1] == y;
      }
      InsertDistinct(dateKey, s[0], t);
    }
  }

  /**
   * What the room list promises: it reorders the deduplicated summaries, no
   * longer than the input, one entry per keyed room, each entry the summary
   * of that room's first row with `id == roomNumber`, and sorted whenever
   * every entry has a date or none has.
   */
  lemma ReportDataProperties(dateKey: string -> int, raw: seq<RawRecord>)
    ensures multiset(ReportData(dateKey, raw)) == multiset(Dedup(raw))
    ensures |ReportData(dateKey, raw)| <= |raw|
    ensures DistinctRooms(ReportData(dateKey, raw))
    ensures RoomNumbers(ReportData(dateKey, raw)) == KeyedRoomNumbers(raw)
    ensures forall x :: x in ReportData(dateKey, raw) ==>
      x.id == x.roomNumber &&
      FirstRowOf(raw, x.roomNumber) < |raw| &&
      x == Summarize(raw[FirstRowOf(raw, x.roomNumber)])
    ensures OneKey(Dedup(raw)) ==> Sorted(dateKey, ReportData(dateKey, raw))
  {
    var d := Dedup(raw);
    var r := ReportData(dateKey, raw);
    SameElements(r, d);
    DedupDistinct(raw);
    SortDistinct(dateKey, d);
    DedupRooms(raw);
    DedupFirstWins(raw);
    FirstWinsEntries(raw, d);
    assert RoomNumbers(r) == RoomNumbers(d);
    if OneKey(d) {
      SortSorted(dateKey, d);
    }
  }

  /** Two lists with the same multiset have the same length and the same members. */
  lemma SameElements<T>(a: seq<T>, b: seq<T>)
    requires multiset(a) == multiset(b)
    ensures |a| == |b|
    ensures forall x :: x in a <==> x in b
  {
    assert |a| == |multiset(a)|;
    forall x
      ensures x in a <==> x in b
    {
      assert x in a <==> x in multiset(a);
      assert x in b <==> x in multiset(b);
    }
  }

  /** Each entry of a first-wins list is the summary of its room's first row. */
  lemma FirstWinsEntries(raw: seq<RawRecord>, d: seq<RoomSummary>)
    requires FirstWins(raw, d)
    ensures forall x :: x in d ==>
      x.id == x.roomNumber &&
      FirstRowOf(raw, x.roomNumber) < |raw| &&
      x == Summarize(raw[FirstRowOf(raw, x.roomNumber)])
  {
    forall x | x in d
      ensures x.id == x.roomNumber
      ensures FirstRowOf(raw, x.roomNumber) < |raw|
      ensures x == Summarize(raw[FirstRowOf(raw, x.roomNumber)])
    {
      var k :| 0 <= k < |d| && d[k] == x;
    }
  }

  /** When every keyed row has a date the summaries all have one, and likewise for none. */
  lemma {:induction false} DedupDating(raw: seq<RawRecord>)
    ensures (forall r :: r in raw && HasRoomKey(r) ==> r.installDate != "") ==> AllDated(Dedup(raw))
    ensures (forall r :: r in raw && HasRoomKey(r) ==> r.installDate == "") ==> NoneDated(Dedup(raw))
  {
    if raw != [] {
      var front := raw[..|raw| - 1];
      assert forall r :: r in front ==> r in raw;
      DedupDating(front);
    }
  }

  /** The two-row example: a duplicate room keeps the first row's customer. */
  lemma FirstCustomerKept()
    ensures var x := RawRecord("A", "1", "X", "", "", "", "", "", "", "", "", "");
            var y := RawRecord("A", "1", "Y", "", "", "", "", "", "", "", "", "");
            Dedup([x, y]) == [Summarize(x)] && Dedup([x, y])[0].customerName == "X"
  {
    var x := RawRecord("A", "1", "X", "", "", "", "", "", "", "", "", "");
    var y := RawRecord("A", "1", "Y", "", "", "", "", "", "", "", "", "");
    assert [x, y][..1] == [x];
    assert [x][..0] == [];
  }

  /**
   * With dated and undated entries mixed the comparator is not transitive:
   * a dated `a` may precede an undated `b`, which may precede a dated `c`,
   * although `c`'s later date puts it before `a`.
   */
  lemma MixedDatesNotTransitive()
    ensures var dateKey := (d: string) => |d|;
            var a := RoomSummary("a", "", "", "", "", "", "", "1", "a");
            var b := RoomSummary("b", "", "", "", "", "", "", "", "b");
            var c := RoomSummary("c", "", "", "", "", "", "", "22", "c");
            Compare(dateKey, a, b) < 0 && Compare(dateKey, b, c) < 0 && Compare(dateKey, a, c) > 0
  {
  }
}

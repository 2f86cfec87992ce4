/**
 * `useReportData` and `useRoomDetails` (src/hooks/useReportData.js): the
 * `select` filter of the room list and the fallbacks of the two `queryFn`s.
 * Caching, staleness and retries belong to the query library and are not
 * modelled.
 */
module ReportHooks {
  import opened Wrappers
  import opened Strings
  import opened Records
  import opened Sequences
  import RecordSource
  import ReportTransform
  import RoomDetailResolver

  // ---------------------------------------------------------------------
  // The client filter
  // ---------------------------------------------------------------------

  /** The search filters object: field name to pattern. */
  type SearchFilters = map<string, string>

  /** `searchFilters[key]`, with `""` for a missing key. */
  function Pattern(filters: SearchFilters, key: string): string {
    if key in filters then filters[key] else ""
  }

  /** `!pattern || field.toLowerCase().includes(pattern.toLowerCase())`. */
  predicate FieldMatches(field: string, pattern: string) {
    pattern == "" || Contains(Lower(field), Lower(pattern))
  }

  /** `matchesRoom && matchesCustomer && matchesAddress`. */
  predicate Matches(item: RoomSummary, filters: SearchFilters) {
    && FieldMatches(item.roomNumber, Pattern(filters, "roomNumber"))
    && FieldMatches(item.customerName, Pattern(filters, "customerName"))
    && FieldMatches(item.addressNo, Pattern(filters, "addressNo"))
  }

  /** `data.filter(item => ...)`: the matching items in input order, unmodified. */
  function FilterItems(items: seq<RoomSummary>, filters: SearchFilters): (kept: seq<RoomSummary>)
    ensures forall x :: x in kept <==> x in items && Matches(x, filters)
    ensures Subsequence(kept, items)
  {
    if items == [] then []
    else
      var rest := FilterItems(items[1..], filters);
      if Matches(items[0], filters) then [items[0]] + rest
      else
        SubsequenceDropHead(rest, items);
        rest
  }

  /** `select`: `[]` when the query has no data, the filtered list otherwise. */
  function Select(data: Option<seq<RoomSummary>>, filters: SearchFilters): seq<RoomSummary> {
    match data
    case None => []
    case Some(items) => FilterItems(items, filters)
  }

  /** Each matching item is kept as often as it occurs, every other item is dropped. */
  lemma {:induction false} FilterCounts(items: seq<RoomSummary>, filters: SearchFilters, x: RoomSummary)
    ensures multiset(FilterItems(items, filters))[x] == if Matches(x, filters) then multiset(items)[x] else 0
  {
    if items != [] {
      FilterCounts(items[1..], filters, x);
      var rest := FilterItems(items[1..], filters);
      var keep := Matches(items[0], filters);
      assert FilterItems(items, filters) == (if keep then [items[0]] else []) + rest;
      assert items == [items[0]] + items[1..];
      CountAfterStep(items[0], items[1..], FilterItems(items, filters), rest, keep, Matches(x, filters), x);
    }
  }

  /** One step of a filter: the head, kept or not, adds to the count of `x` only when it is `x`. */
  lemma CountAfterStep<T>(head: T, rest: seq<T>, kept: seq<T>, keptRest: seq<T>, keep: bool, keepX: bool, x: T)
    requires kept == (if keep then [head] else []) + keptRest
    requires multiset(keptRest)[x] == if keepX then multiset(rest)[x] else 0
    requires head == x ==> keep == keepX
    ensures multiset(kept)[x] == if keepX then multiset([head] + rest)[x] else 0
  {
  }

  /** Filters that agree on the three recognised patterns select the same items. */
  lemma {:induction false} FilterDependsOnPatterns(items: seq<RoomSummary>, f: SearchFilters, g: SearchFilters)
    requires Pattern(f, "roomNumber") == Pattern(g, "roomNumber")
    requires Pattern(f, "customerName") == Pattern(g, "customerName")
    requires Pattern(f, "addressNo") == Pattern(g, "addressNo")
    ensures FilterItems(items, f) == FilterItems(items, g)
  {
    if items != [] {
      FilterDependsOnPatterns(items[1..], f, g);
    }
  }

  /** Filters whose three patterns are all empty keep every item, in order. */
  lemma {:induction false} FilterWithoutPatterns(items: seq<RoomSummary>, filters: SearchFilters)
    requires Pattern(filters, "roomNumber") == ""
    requires Pattern(filters, "customerName") == ""
    requires Pattern(filters, "addressNo") == ""
    ensures FilterItems(items, filters) == items
  {
    if items != [] {
      FilterWithoutPatterns(items[1..], filters);
    }
  }

  /** `{}` returns the input unchanged. */
  lemma EmptyFiltersKeepAll(items: seq<RoomSummary>)
    ensures Select(Some(items), map[]) == items
  {
    FilterWithoutPatterns(items, map[]);
  }

  /** Filtering a filtered list again changes nothing. */
  lemma {:induction false} FilterIdempotent(items: seq<RoomSummary>, filters: SearchFilters)
    ensures FilterItems(FilterItems(items, filters), filters) == FilterItems(items, filters)
  {
    if items != [] {
      FilterIdempotent(items[1..], filters);
    }
  }

  /** A filter that admits fewer items selects a subsequence of what the other selects. */
  lemma {:induction false} FilterMonotone(items: seq<RoomSummary>, f: SearchFilters, g: SearchFilters)
    requires forall x :: Matches(x, g) ==> Matches(x, f)
    ensures Subsequence(FilterItems(items, g), FilterItems(items, f))
  {
    if items != [] {
      FilterMonotone(items[1..], f, g);
      var fr := FilterItems(items[1..], f);
      var gr := FilterItems(items[1..], g);
      if !Matches(items[0], g) && Matches(items[0], f) {
        SubsequenceDropHead(gr, [items[0]] + fr);
      } else if Matches(items[0], g) {
        assert ([items[0]] + gr)[1..] == gr && ([items[0]] + fr)[1..] == fr;
      }
    }
  }

  /**
   * Adding a non-empty pattern for a recognised field that had none never
   * enlarges the result: it selects a subsequence of the previous result.
   */
  lemma AddingPatternNarrows(items: seq<RoomSummary>, filters: SearchFilters, key: string, pattern: string)
    requires key == "roomNumber" || key == "customerName" || key == "addressNo"
    requires Pattern(filters, key) == ""
    ensures Subsequence(FilterItems(items, filters[key := pattern]), FilterItems(items, filters))
    ensures |FilterItems(items, filters[key := pattern])| <= |FilterItems(items, filters)|
  {
    FilterMonotone(items, filters, filters[key := pattern]);
    SubsequenceLength(FilterItems(items, filters[key := pattern]), FilterItems(items, filters));
  }

  /** Matching ignores letter case on both sides. */
  lemma CaseInsensitive(field: string, pattern: string)
    ensures FieldMatches(field, pattern) <==> FieldMatches(Lower(field), Lower(pattern))
  {
    LowerIdempotent(field);
    LowerIdempotent(pattern);
  }

  /** No upper-case ASCII letter occurs in the text. */
  predicate NoCapitals(s: string) {
    forall i :: 0 <= i < |s| ==> !('A' <= s[i] <= 'Z')
  }

  /** Text without upper-case ASCII letters is its own lower case. */
  lemma {:induction false} LowerWithoutCapitals(s: string)
    requires NoCapitals(s)
    ensures Lower(s) == s
  {
    if s != [] {
      LowerWithoutCapitals(s[1..]);
    }
  }

  /** Without capital letters, a field matches when it contains the pattern, case and all. */
  lemma MatchesWithoutCapitals(field: string, pattern: string)
    requires NoCapitals(field) && NoCapitals(pattern)
    ensures FieldMatches(field, pattern) <==> pattern == "" || Contains(field, pattern)
  {
    LowerWithoutCapitals(field);
    LowerWithoutCapitals(pattern);
  }

  /** The example room numbers and pattern are digits and dashes only. */
  lemma FoundFieldWithoutCapitals()
    ensures NoCapitals("70401-0209")
  {
  }

  lemma MissingFieldWithoutCapitals()
    ensures NoCapitals("70402-0100")
  {
  }

  lemma PatternWithoutCapitals()
    ensures NoCapitals("70401")
  {
  }

  /** `"70401"` occurs in `"70401-0209"`. */
  lemma ExamplePatternFound()
    ensures FieldMatches("70401-0209", "70401")
  {
    assert StartsWith("70401-0209", "70401");
    FoundFieldWithoutCapitals();
    PatternWithoutCapitals();
    MatchesWithoutCapitals("70401-0209", "70401");
  }

  /** `"70401"` does not occur in `"70402-0100"`: the only `7` is followed by `0402`. */
  lemma ExampleTextMissing()
    ensures !Contains("70402-0100", "70401")
  {
    var s := "70402-0100";
    forall i | 0 <= i && i + 5 <= |s|
      ensures !OccursAt(s, "70401", i)
    {
      var w := s[i..i + 5];
      if i == 0 {
        assert w[4] == '2';
      } else {
        assert w[0] == s[i] != '7';
      }
    }
    ContainsIffOccurs(s, "70401");
  }

  /** Hence the pattern `"70401"` rejects `"70402-0100"`. */
  lemma ExamplePatternMissing()
    ensures !FieldMatches("70402-0100", "70401")
  {
    ExampleTextMissing();
    MissingFieldWithoutCapitals();
    PatternWithoutCapitals();
    MatchesWithoutCapitals("70402-0100", "70401");
  }

  /** A room-number-only filter decides on the room number alone. */
  lemma RoomNumberOnly(item: RoomSummary, pattern: string)
    ensures Matches(item, map["roomNumber" := pattern]) <==> FieldMatches(item.roomNumber, pattern)
  {
    var f := map["roomNumber" := pattern];
    assert "customerName" !in f && "addressNo" !in f;
  }

  /** Of two items, only the first of which matches, the filter keeps the first. */
  lemma KeepFirstOfTwo(a: RoomSummary, b: RoomSummary, filters: SearchFilters)
    requires Matches(a, filters) && !Matches(b, filters)
    ensures FilterItems([a, b], filters) == [a]
  {
    assert [a, b][1..] == [b];
    assert [b][1..] == [];
  }

  /**
   * `{ roomNumber: "70401" }` keeps room `70401-0209` and drops room
   * `70402-0100`, whatever their other fields.
   */
  lemma RoomNumberExample(a: RoomSummary, b: RoomSummary)
    requires a.roomNumber == "70401-0209" && b.roomNumber == "70402-0100"
    ensures Select(Some([a, b]), map["roomNumber" := "70401"]) == [a]
  {
    ExamplePatternFound();
    ExamplePatternMissing();
    RoomNumberOnly(a, "70401");
    RoomNumberOnly(b, "70401");
    KeepFirstOfTwo(a, b, map["roomNumber" := "70401"]);
  }

  // ---------------------------------------------------------------------
  // The query functions
  // ---------------------------------------------------------------------

  /**
   * The list query's `queryFn`: the transformed rows; when fetching or
   * transforming throws (`Err`), the demonstration room.
   */
  function ReportQueryFn(dateKey: string -> int, fetched: Result<seq<RawRecord>, string>): (rooms: seq<RoomSummary>)
    ensures fetched.Err? ==> rooms == RecordSource.MockData && |rooms| == 1 && rooms[0].roomNumber == "70401-0209"
    ensures fetched.Ok? ==> multiset(rooms) == multiset(ReportTransform.Dedup(fetched.value))
    ensures fetched.Ok? ==> rooms == ReportTransform.ReportData(dateKey, fetched.value)
  {
    match fetched
    case Ok(rawData) => ReportTransform.ReportData(dateKey, rawData)
    case Err(_) => RecordSource.MockData
  }

  /** `useReportData(searchFilters)`: the filtered room list. */
  function UseReportData(dateKey: string -> int, fetched: Result<seq<RawRecord>, string>, searchFilters: SearchFilters)
    : seq<RoomSummary>
  {
    Select(Some(ReportQueryFn(dateKey, fetched)), searchFilters)
  }

  /**
   * `getAllData` never throws: when the backend is unreachable or answers
   * with an error, the list is empty rather than the demonstration room.
   */
  lemma FailedFetchListsNothing(dateKey: string -> int, outcome: RecordSource.Outcome<RecordSource.DataBody>,
                                searchFilters: SearchFilters)
    requires RecordSource.FetchData(outcome).Err?
    ensures UseReportData(dateKey, Ok(RecordSource.GetAllData(outcome)), searchFilters) == []
  {
    ReportTransform.ReportDataProperties(dateKey, []);
  }

  /** The room-details query's `queryFn`: the details, or no room on any error. */
  function RoomDetailsQueryFn(roomNumber: string, outcome: RecordSource.Outcome<RecordSource.DataBody>)
    : (details: RoomDetails)
    ensures RoomDetailResolver.GetRoomDetails(roomNumber, outcome).Err? ==> details == NoRoom
  {
    match RoomDetailResolver.GetRoomDetails(roomNumber, outcome)
    case Ok(d) => d
    case Err(_) => NoRoom
  }

  /**
   * `useRoomDetails(roomNumber)`: disabled (no data) for an empty
   * identifier; otherwise the room, or no room when the identifier has no
   * dash, matches nothing, or the fetch failed.
   */
  function UseRoomDetails(roomNumber: string, outcome: RecordSource.Outcome<RecordSource.DataBody>)
    : (data: Option<RoomDetails>)
    ensures data.None? <==> roomNumber == ""
    ensures data.Some? && RecordSource.FetchData(outcome).Err? ==> data.value == NoRoom
    ensures data.Some? && RecordSource.FetchData(outcome).Ok? ==>
      data.value == RoomDetailResolver.ResolveRoom(roomNumber, RecordSource.RowsOf(RecordSource.FetchData(outcome).value))
  {
    if roomNumber == "" then None
    else
      var d := RoomDetailsQueryFn(roomNumber, outcome);
      RoomDetailResolver.ParseAtFirstDash(roomNumber);
      Some(d)
  }
}

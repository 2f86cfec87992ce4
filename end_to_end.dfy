/**
 * The dashboard client against the backend: the requests `ApiService`
 * sends for the room list and for one room's details are served by
 * `get_data` as a first page of at most 1000 rows with no filter.
 */
module EndToEnd {
  import opened Wrappers
  import opened Strings
  import RecordSource
  import SimpleApi

  /** The query `parse_qs` reads from `limit=1000&offset=0`. */
  lemma FirstPageQuery()
    ensures SimpleApi.ParseQs([("limit", "1000"), ("offset", "0")]) == map["limit" := ["1000"], "offset" := ["0"]]
    ensures SimpleApi.ParseQs([("limit", "1000")]) == map["limit" := ["1000"]]
  {
    var pairs := [("limit", "1000"), ("offset", "0")];
    assert pairs[..1] == [("limit", "1000")];
    assert pairs[..1][..0] == [];
  }

  /** `1000` and `0` are written and read back as themselves. */
  lemma PageNumbers()
    ensures IntToDecimal(1000) == "1000" && IntToDecimal(0) == "0"
  {
    assert NatToDecimal(1000) == "1000" by {
      assert NatToDecimal(1) == "1";
      assert NatToDecimal(10) == "10";
      assert NatToDecimal(100) == "100";
    }
  }

  /** A query that names none of the filter columns adds no condition. */
  lemma {:induction false} NoFilterNamed(q: SimpleApi.QueryParams, columns: seq<string>)
    requires SimpleApi.ParsedQuery(q)
    requires forall c :: c in columns ==> c !in q
    ensures SimpleApi.Applicable(q, columns) == []
  {
    if columns != [] {
      NoFilterNamed(q, columns[1..]);
    }
  }

  /** A query holding only `limit` has no `offset`. */
  lemma LimitAlone(q: SimpleApi.QueryParams)
    requires q == map["limit" := ["1000"]]
    ensures SimpleApi.ParsedQuery(q) && "limit" in q && "offset" !in q && q["limit"][0] == "1000"
  {
    SimpleApi.SingleNameParsed("limit", "1000");
    assert |"offset"| != |"limit"|;
  }

  /** The first page queries name no filter column. */
  lemma FirstPageUnfiltered(q: SimpleApi.QueryParams)
    requires q == map["limit" := ["1000"], "offset" := ["0"]] || q == map["limit" := ["1000"]]
    ensures SimpleApi.ParsedQuery(q)
    ensures SimpleApi.UsedFilters(q) == []
  {
    assert forall c :: c in SimpleApi.FilterColumns ==> c !in q;
    NoFilterNamed(q, SimpleApi.FilterColumns);
  }

  /**
   * `getAllData()` reaches the data endpoint, which reads a limit of 1000,
   * an offset of 0 and no filter: the first 1000 rows of the whole table.
   */
  lemma AllDataRequestServed()
    ensures var request := RecordSource.RequestFor("/data", RecordSource.AllDataParams([]));
      var q := SimpleApi.ParseQs(request.query);
      && SimpleApi.Route(request.path) == Some(SimpleApi.GetData)
      && SimpleApi.Pagination(q) == (1000, 0)
      && SimpleApi.UsedFilters(q) == []
  {
    RecordSource.RequestsSent();
    FirstPageQuery();
    PageNumbers();
    SimpleApi.PaginationOfIntegers(1000, 0);
    FirstPageUnfiltered(map["limit" := ["1000"], "offset" := ["0"]]);
  }

  /**
   * The room details request (`limit: 1000` only) is served the same
   * first page: the offset takes its default of 0.
   */
  lemma RoomDetailsRequestServed()
    ensures var request := RecordSource.RequestFor("/data", [("limit", RecordSource.JsNumber(1000))]);
      var q := SimpleApi.ParseQs(request.query);
      && SimpleApi.Route(request.path) == Some(SimpleApi.GetData)
      && SimpleApi.Pagination(q) == (1000, 0)
      && SimpleApi.UsedFilters(q) == []
  {
    RecordSource.RequestsSent();
    FirstPageQuery();
    PageNumbers();
    PyIntOfDecimal(1000);
    LimitAlone(map["limit" := ["1000"]]);
    SimpleApi.PaginationOfLimitAlone(map["limit" := ["1000"]], 1000);
    FirstPageUnfiltered(map["limit" := ["1000"]]);
  }
}

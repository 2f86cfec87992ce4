/**
 * The request handling of `DashboardAPI` (simple_api.py): which paths are
 * served, the body of an error reply, and how `get_data` turns the query
 * string into an SQL text, its parameters and the paginated response. The
 * database is not modelled: the rows a query returns are given by the
 * caller.
 */
module SimpleApi {
  import opened Wrappers
  import opened Strings
  import opened Sequences
  import opened Dicts

  /** A JSON value as `json.dumps` writes it. */
  datatype Json =
    | JNull
    | JInt(i: int)
    | JString(s: string)
    | JArray(items: seq<Json>)
    | JObject(fields: Dict<Json>)

  // ---------------------------------------------------------------------
  // Routing and error replies
  // ---------------------------------------------------------------------

  /** `valid_endpoints`. */
  const ValidEndpoints: seq<string> := ["/api/stats", "/api/data", "/api/projects", "/api/status"]

  /** The handler `do_GET` dispatches to. */
  datatype Handler = GetStats | GetData | GetProjects | GetStatusSummary

  /** `do_GET`'s route check and dispatch. */
  function Route(path: string): (handler: Option<Handler>)
    ensures handler.None? <==> path !in ValidEndpoints
    ensures handler == Some(GetData) <==> path == "/api/data"
  {
    if path == "/api/stats" then Some(GetStats)
    else if path == "/api/data" then Some(GetData)
    else if path == "/api/projects" then Some(GetProjects)
    else if path == "/api/status" then Some(GetStatusSummary)
    else None
  }

  /**
   * `send_error_response`'s body: `{"error": message}`, then `update`d with
   * `extra_data` when that is given and not empty.
   */
  function ErrorBody(message: string, extraData: Option<Dict<Json>>): Dict<Json> {
    var errorResponse := [("error", JString(message))];
    if extraData.Some? && extraData.value != [] then Spread(errorResponse, extraData.value)
    else errorResponse
  }

  /**
   * The error body leads with `error`, which holds the message unless the
   * extra data overrides it; every key of the extra data holds its value.
   */
  lemma ErrorBodyContents(message: string, extraData: Option<Dict<Json>>, k: string)
    requires extraData.Some? ==> DistinctKeys(extraData.value)
    ensures var body := ErrorBody(message, extraData);
      |body| >= 1 && body[0].0 == "error" &&
      Lookup(body, k) ==
        if extraData.Some? && Lookup(extraData.value, k).Some? then Lookup(extraData.value, k)
        else if k == "error" then Some(JString(message))
        else None
  {
    var errorResponse := [("error", JString(message))];
    if extraData.Some? && extraData.value != [] {
      SpreadLookup(errorResponse, extraData.value, k);
      SpreadKeepsKeys(errorResponse, extraData.value);
    } else if extraData.Some? {
      assert Lookup(extraData.value, k).None?;
    }
  }

  /** With one extra entry under another key, the body is the error followed by that entry. */
  lemma ErrorBodyWithOneEntry(message: string, key: string, value: Json)
    requires key != "error"
    ensures ErrorBody(message, Some([(key, value)])) == [("error", JString(message)), (key, value)]
  {
    var errorResponse := [("error", JString(message))];
    var extra := [(key, value)];
    assert errorResponse[1..] == [] && extra[1..] == [];
    assert Assign(errorResponse, key, value) == [("error", JString(message)), (key, value)];
    assert Spread(errorResponse, extra) == Spread(Assign(errorResponse, key, value), []);
  }

  /** A reply: its status and its JSON object body. */
  datatype Reply = Reply(status: nat, body: Dict<Json>)

  /** The list of endpoints as the 404 body carries it. */
  function EndpointList(): (list: Json)
    ensures list.JArray? && |list.items| == |ValidEndpoints|
    ensures forall i :: 0 <= i < |ValidEndpoints| ==> list.items[i] == JString(ValidEndpoints[i])
  {
    JArray([JString("/api/stats"), JString("/api/data"), JString("/api/projects"), JString("/api/status")])
  }

  /**
   * `do_GET`: a path outside the endpoints gets 404 with the endpoint
   * list; a served path gets 200 with its handler's response, or 500 with
   * the exception text when the handler raised.
   */
  function DoGet(path: string, handled: Handler -> Result<Dict<Json>, string>): (reply: Reply)
    ensures reply.status == 404 <==> path !in ValidEndpoints
    ensures reply.status == 404 ==>
      reply.body == [("error", JString("Endpoint not found")), ("available_endpoints", EndpointList())]
    ensures reply.status == 500 ==>
      exists details :: reply.body == [("error", JString("Internal server error")), ("details", JString(details))]
    ensures reply.status == 200 || reply.status == 404 || reply.status == 500
    ensures Route(path).Some? && handled(Route(path).value).Ok? ==>
      reply == Reply(200, handled(Route(path).value).value)
    ensures Route(path).Some? && handled(Route(path).value).Err? ==>
      reply.status == 500 &&
      reply.body == [("error", JString("Internal server error")), ("details", JString(handled(Route(path).value).error))]
  {
    match Route(path)
    case None =>
      ErrorBodyWithOneEntry("Endpoint not found", "available_endpoints", EndpointList());
      Reply(404, ErrorBody("Endpoint not found", Some([("available_endpoints", EndpointList())])))
    case Some(handler) =>
      match handled(handler)
      case Ok(response) => Reply(200, response)
      case Err(details) =>
        ErrorBodyWithOneEntry("Internal server error", "details", JString(details));
        Reply(500, ErrorBody("Internal server error", Some([("details", JString(details))])))
  }

  // ---------------------------------------------------------------------
  // The query string
  // ---------------------------------------------------------------------

  /** `parse_qs(query)`: each name with its values in order. */
  type QueryParams = map<string, seq<string>>

  /** What `parse_qs` produces: every name has at least one value and no value is blank. */
  predicate ParsedQuery(q: QueryParams) {
    forall k :: k in q ==> |q[k]| > 0 && forall i :: 0 <= i < |q[k]| ==> q[k][i] != ""
  }

  /**
   * `parse_qs` on already decoded `(name, value)` pairs: blank values are
   * dropped, the others are collected by name in order.
   */
  function ParseQs(pairs: seq<(string, string)>): (q: QueryParams)
    ensures ParsedQuery(q)
  {
    if pairs == [] then map[]
    else
      var q := ParseQs(pairs[..|pairs| - 1]);
      var (name, value) := pairs[|pairs| - 1];
      if value == "" then q
      else if name in q then q[name := q[name] + [value]]
      else q[name := [value]]
  }

  /** The non-blank values the pairs give `name`, in order. */
  function ValuesOf(pairs: seq<(string, string)>, name: string): seq<string> {
    if pairs == [] then []
    else (if pairs[0].0 == name && pairs[0].1 != "" then [pairs[0].1] else []) + ValuesOf(pairs[1..], name)
  }

  /** Appending a pair adds its value to its name's values when it is not blank. */
  lemma {:induction false} ValuesOfAppend(pairs: seq<(string, string)>, p: (string, string), name: string)
    ensures ValuesOf(pairs + [p], name) == ValuesOf(pairs, name) + (if p.0 == name && p.1 != "" then [p.1] else [])
  {
    if pairs != [] {
      assert (pairs + [p])[1..] == pairs[1..] + [p];
      ValuesOfAppend(pairs[1..], p, name);
    } else {
      assert [p][1..] == [];
    }
  }

  /**
   * `parse_qs` keeps, for every name, exactly its non-blank values in the
   * order they occur; a name without one is absent.
   */
  lemma {:induction false} ParseQsValues(pairs: seq<(string, string)>, name: string)
    ensures name in ParseQs(pairs) ==> ParseQs(pairs)[name] == ValuesOf(pairs, name)
    ensures name !in ParseQs(pairs) ==> ValuesOf(pairs, name) == []
  {
    if pairs != [] {
      var init := pairs[..|pairs| - 1];
      ParseQsValues(init, name);
      assert pairs == init + [pairs[|pairs| - 1]];
      ValuesOfAppend(init, pairs[|pairs| - 1], name);
    }
  }

  /** The first non-blank value given to a name is its first value. */
  lemma {:induction false} ValuesOfFirst(pairs: seq<(string, string)>, name: string, i: nat)
    requires i < |pairs| && pairs[i].0 == name && pairs[i].1 != ""
    requires forall j :: 0 <= j < i ==> !(pairs[j].0 == name && pairs[j].1 != "")
    ensures ValuesOf(pairs, name) != [] && ValuesOf(pairs, name)[0] == pairs[i].1
  {
    if i > 0 {
      ValuesOfFirst(pairs[1..], name, i - 1);
    }
  }

  /**
   * What `get_data` reads as `query_params[name][0]`: the first non-blank
   * value given to the name.
   */
  lemma FirstValueRead(pairs: seq<(string, string)>, name: string, i: nat)
    requires i < |pairs| && pairs[i].0 == name && pairs[i].1 != ""
    requires forall j :: 0 <= j < i ==> !(pairs[j].0 == name && pairs[j].1 != "")
    ensures name in ParseQs(pairs) && ParseQs(pairs)[name][0] == pairs[i].1
  {
    ParseQsValues(pairs, name);
    ValuesOfFirst(pairs, name, i);
  }

  /** The last pair adds its name when its value is not blank. */
  lemma ParseQsStep(pairs: seq<(string, string)>)
    requires pairs != []
    ensures var last := pairs[|pairs| - 1];
      forall k :: k in ParseQs(pairs) <==> k in ParseQs(pairs[..|pairs| - 1]) || (last.0 == k && last.1 != "")
  {
  }

  /** A name is present exactly when some pair gives it a non-blank value. */
  lemma ParseQsNames(pairs: seq<(string, string)>)
    ensures forall k :: k in ParseQs(pairs) <==> exists i :: 0 <= i < |pairs| && pairs[i].0 == k && pairs[i].1 != ""
  {
    forall k
      ensures k in ParseQs(pairs) <==> exists i :: 0 <= i < |pairs| && pairs[i].0 == k && pairs[i].1 != ""
    {
      if k in ParseQs(pairs) {
        ParseQsFrom(pairs, k);
      }
      if exists i :: 0 <= i < |pairs| && pairs[i].0 == k && pairs[i].1 != "" {
        var i :| 0 <= i < |pairs| && pairs[i].0 == k && pairs[i].1 != "";
        ParseQsHas(pairs, i);
      }
    }
  }

  /** A pair with a non-blank value puts its name in the query. */
  lemma {:induction false} ParseQsHas(pairs: seq<(string, string)>, i: nat)
    requires i < |pairs| && pairs[i].1 != ""
    ensures pairs[i].0 in ParseQs(pairs)
  {
    var init := pairs[..|pairs| - 1];
    ParseQsStep(pairs);
    if i < |init| {
      assert init[i] == pairs[i];
      ParseQsHas(init, i);
    }
  }

  /** Every name in the query comes from a pair with a non-blank value. */
  lemma {:induction false} ParseQsFrom(pairs: seq<(string, string)>, k: string)
    requires k in ParseQs(pairs)
    ensures exists i :: 0 <= i < |pairs| && pairs[i].0 == k && pairs[i].1 != ""
  {
    var init := pairs[..|pairs| - 1];
    ParseQsStep(pairs);
    if k in ParseQs(init) {
      ParseQsFrom(init, k);
      var i :| 0 <= i < |init| && init[i].0 == k && init[i].1 != "";
      assert pairs[i] == init[i];
    } else {
      assert pairs[|pairs| - 1].0 == k;
    }
  }

  /** The first value of a name, stripped (`query_params[name][0].strip()`). */
  function FirstStripped(q: QueryParams, name: string): string
    requires ParsedQuery(q) && name in q
  {
    Strip(q[name][0], PyWhitespace)
  }

  // ---------------------------------------------------------------------
  // The data query
  // ---------------------------------------------------------------------

  /** The columns `get_data` can filter on, in the order it tests them. */
  const FilterColumns: seq<string> := ["project_code", "install_status", "brand"]

  /** The filter is applied: the name is given and its first value is not blank. */
  predicate Filtered(q: QueryParams, column: string)
    requires ParsedQuery(q)
  {
    column in q && FirstStripped(q, column) != ""
  }

  /** The columns among `columns` whose filter applies, in the order given. */
  function Applicable(q: QueryParams, columns: seq<string>): (used: seq<string>)
    requires ParsedQuery(q)
    ensures forall c :: c in used <==> c in columns && Filtered(q, c)
    ensures Subsequence(used, columns)
  {
    if columns == [] then []
    else
      var rest := Applicable(q, columns[1..]);
      if Filtered(q, columns[0]) then [columns[0]] + rest
      else
        SubsequenceDropHead(rest, columns);
        rest
  }

  /**
   * The filtered columns, in the order `get_data` adds their conditions:
   * a subsequence of `project_code`, `install_status`, `brand`.
   */
  function UsedFilters(q: QueryParams): seq<string>
    requires ParsedQuery(q)
  {
    Applicable(q, FilterColumns)
  }

  /** `" WHERE " + " AND ".join(where_conditions)`, or nothing without conditions. */
  function WhereClause(conditions: seq<string>): string {
    if conditions == [] then "" else " WHERE " + Join(conditions, " AND ")
  }

  /** A column's condition, `column = ?`. */
  function Condition(column: string): string {
    column + " = ?"
  }

  /** The conditions of the columns, in order. */
  function Conditions(columns: seq<string>): (conditions: seq<string>)
    ensures |conditions| == |columns|
  {
    if columns == [] then [] else Conditions(columns[..|columns| - 1]) + [Condition(columns[|columns| - 1])]
  }

  /** The `i`-th condition tests the `i`-th column. */
  lemma {:induction false} ConditionsAt(columns: seq<string>, i: nat)
    requires i < |columns|
    ensures Conditions(columns)[i] == Condition(columns[i])
  {
    var init := columns[..|columns| - 1];
    if i < |columns| - 1 {
      assert init[i] == columns[i];
      ConditionsAt(init, i);
    }
  }

  /** The stripped first values of the columns, in order, as query parameters. */
  function FilterParams(q: QueryParams, columns: seq<string>): (params: seq<SqlParam>)
    requires ParsedQuery(q)
    requires forall c :: c in columns ==> c in q
    ensures |params| == |columns|
  {
    if columns == [] then []
    else FilterParams(q, columns[..|columns| - 1]) + [SqlText(FirstStripped(q, columns[|columns| - 1]))]
  }

  /** The `i`-th parameter is the stripped first value of the `i`-th column. */
  lemma {:induction false} FilterParamsAt(q: QueryParams, columns: seq<string>, i: nat)
    requires ParsedQuery(q)
    requires forall c :: c in columns ==> c in q
    requires i < |columns|
    ensures FilterParams(q, columns)[i] == SqlText(FirstStripped(q, columns[i]))
  {
    var init := columns[..|columns| - 1];
    if i < |columns| - 1 {
      assert init[i] == columns[i];
      FilterParamsAt(q, init, i);
    }
  }

  /** The columns `get_data` selects, in order. */
  const ResultColumns: seq<string> :=
    [ "order_number", "order_date", "project_code", "project_name", "unit_no", "house_number",
      "contact_name", "contact_phone", "product_detail", "brand", "product_size",
      "install_date", "install_status", "document_status", "building", "floor_level",
      "items_group", "room_type", "install_point", "color", "sync_timestamp" ]

  /**
   * `base_query` before any clause is appended, with the layout whitespace
   * of the source's multi-line literal (line breaks and indentation)
   * collapsed to single spaces; SQLite reads both texts alike.
   */
  const BaseQuery: string :=
    "SELECT order_number, order_date, project_code, project_name, unit_no, house_number, "
    + "contact_name, contact_phone, product_detail, brand, product_size, "
    + "install_date, install_status, document_status, building, floor_level, "
    + "items_group, room_type, install_point, color, sync_timestamp "
    + "FROM dashboard_data"

  /** The ordering and paging clause, always appended last. */
  const OrderClause: string := " ORDER BY order_date DESC LIMIT ? OFFSET ?"

  /** A value bound to a `?` of the query. */
  datatype SqlParam = SqlText(text: string) | SqlInt(n: int)

  function Min(a: int, b: int): int { if a <= b then a else b }
  function Max(a: int, b: int): int { if a >= b then a else b }

  /**
   * The `limit` and `offset` of `get_data`: 100 and 0 when absent; a given
   * limit is capped at 1000 and a given offset raised to 0; when either
   * fails to parse as an integer, both revert to 100 and 0.
   */
  function Pagination(q: QueryParams): (page: (int, int))
    requires ParsedQuery(q)
    ensures page.0 <= 1000 && page.1 >= 0
  {
    var limit := if "limit" in q then PyInt(q["limit"][0]) else Some(100);
    var offset := if "offset" in q then PyInt(q["offset"][0]) else Some(0);
    if limit.None? || offset.None? then (100, 0)
    else (Min(limit.value, 1000), Max(offset.value, 0))
  }

  /**
   * Rendered integers come back clamped: the limit capped at 1000 with no
   * lower bound, so a negative limit goes through, the offset floored at 0.
   */
  lemma PaginationOfIntegers(limit: int, offset: int)
    ensures Pagination(map["limit" := [IntToDecimal(limit)], "offset" := [IntToDecimal(offset)]])
      == (if limit <= 1000 then limit else 1000, if offset >= 0 then offset else 0)
  {
    PyIntOfDecimal(limit);
    PyIntOfDecimal(offset);
    var q := map["limit" := [IntToDecimal(limit)], "offset" := [IntToDecimal(offset)]];
    assert "limit" in q && q["limit"][0] == IntToDecimal(limit);
    assert "offset" in q && q["offset"][0] == IntToDecimal(offset);
  }

  /** One name with one non-blank value is a query `parse_qs` can return. */
  lemma SingleNameParsed(name: string, text: string)
    requires text != ""
    ensures var q := map[name := [text]];
      ParsedQuery(q) && name in q && q[name][0] == text
  {
  }

  /** A limit alone, read as an integer: the offset takes its default of 0. */
  lemma PaginationOfLimitAlone(q: QueryParams, limit: int)
    requires ParsedQuery(q) && "limit" in q && "offset" !in q
    requires PyInt(q["limit"][0]) == Some(limit)
    ensures Pagination(q) == (if limit <= 1000 then limit else 1000, 0)
  {
  }

  /** Absent names give the defaults; one unparsable value resets both. */
  lemma PaginationDefaults(q: QueryParams)
    requires ParsedQuery(q)
    ensures "limit" !in q && "offset" !in q ==> Pagination(q) == (100, 0)
    ensures "limit" in q && PyInt(q["limit"][0]).None? ==> Pagination(q) == (100, 0)
    ensures "offset" in q && PyInt(q["offset"][0]).None? ==> Pagination(q) == (100, 0)
    ensures "limit" !in q && "offset" in q && PyInt(q["offset"][0]).Some? ==>
      Pagination(q) == (100, Max(PyInt(q["offset"][0]).value, 0))
  {
  }

  /**
   * One filter block of `get_data`: when the column is given and its first
   * value is not blank after stripping, append its condition and the
   * stripped value.
   */
  method AddFilter(queryParams: QueryParams, column: string, whereConditions: seq<string>, params: seq<SqlParam>,
                   ghost used: seq<string>)
    returns (whereConditions': seq<string>, params': seq<SqlParam>, ghost used': seq<string>)
    requires ParsedQuery(queryParams)
    requires forall c :: c in used ==> c in queryParams
    requires whereConditions == Conditions(used) && params == FilterParams(queryParams, used)
    ensures used' == used + if Filtered(queryParams, column) then [column] else []
    ensures forall c :: c in used' ==> c in queryParams
    ensures whereConditions' == Conditions(used') && params' == FilterParams(queryParams, used')
  {
    whereConditions', params', used' := whereConditions, params, used;
    if column in queryParams {
      var value := FirstStripped(queryParams, column);
      if value != "" {
        ConditionsAppend(used, column);
        FilterParamsAppend(queryParams, used, column);
        whereConditions' := whereConditions + [column + " = ?"];
        params' := params + [SqlText(value)];
        used' := used + [column];
      }
    }
  }

  /**
   * The SQL text and parameters of `get_data`: a condition per applied
   * filter, joined into a `WHERE` clause only when there is one, the
   * ordering and paging clause last; the parameters are the stripped filter
   * values, aligned with their conditions, then the limit and the offset.
   */
  method BuildDataQuery(queryParams: QueryParams) returns (baseQuery: string, params: seq<SqlParam>, limit: int, offset: int)
    requires ParsedQuery(queryParams)
    ensures baseQuery == BaseQuery + WhereClause(Conditions(UsedFilters(queryParams))) + OrderClause
    ensures params == FilterParams(queryParams, UsedFilters(queryParams)) + [SqlInt(limit), SqlInt(offset)]
    ensures (limit, offset) == Pagination(queryParams)
  {
    var whereConditions: seq<string> := [];
    params := [];
    ghost var used: seq<string> := [];
    whereConditions, params, used := AddFilter(queryParams, "project_code", whereConditions, params, used);
    whereConditions, params, used := AddFilter(queryParams, "install_status", whereConditions, params, used);
    whereConditions, params, used := AddFilter(queryParams, "brand", whereConditions, params, used);
    assert used == UsedFilters(queryParams) by {
      UsedFiltersSteps(queryParams);
    }

    var page := Pagination(queryParams);
    limit, offset := page.0, page.1;

    baseQuery := BaseQuery;
    if |whereConditions| > 0 {
      baseQuery := baseQuery + (" WHERE " + Join(whereConditions, " AND "));
    }
    assert baseQuery == BaseQuery + WhereClause(whereConditions);
    baseQuery := baseQuery + OrderClause;
    params := params + [SqlInt(limit), SqlInt(offset)];
  }

  /** Appending a column appends its condition. */
  lemma ConditionsAppend(columns: seq<string>, c: string)
    ensures Conditions(columns + [c]) == Conditions(columns) + [Condition(c)]
  {
    assert (columns + [c])[..|columns|] == columns;
  }

  /** Appending a filtered column appends its parameter. */
  lemma FilterParamsAppend(q: QueryParams, columns: seq<string>, c: string)
    requires ParsedQuery(q)
    requires forall x :: x in columns + [c] ==> x in q
    ensures FilterParams(q, columns + [c]) == FilterParams(q, columns) + [SqlText(FirstStripped(q, c))]
  {
    assert (columns + [c])[..|columns|] == columns;
  }

  /** `Applicable` decides on the first column, then goes on with the rest. */
  lemma ApplicableStep(q: QueryParams, columns: seq<string>)
    requires ParsedQuery(q) && columns != []
    ensures Applicable(q, columns) ==
      (if Filtered(q, columns[0]) then [columns[0]] else []) + Applicable(q, columns[1..])
  {
  }

  /** Two nested concatenations flatten into one. */
  lemma ConcatThree<T>(all: seq<T>, two: seq<T>, last: seq<T>, x: seq<T>, y: seq<T>)
    requires all == x + two && two == y + last
    ensures all == x + y + last
  {
  }

  /** On three columns, `Applicable` tests each in turn. */
  lemma ApplicableOfThree(q: QueryParams, a: string, b: string, c: string)
    requires ParsedQuery(q)
    ensures Applicable(q, [a, b, c]) ==
      (if Filtered(q, a) then [a] else []) + (if Filtered(q, b) then [b] else []) + (if Filtered(q, c) then [c] else [])
  {
    var last := Applicable(q, [c]);
    assert last == (if Filtered(q, c) then [c] else []) by {
      assert [c][1..] == [];
      ApplicableStep(q, [c]);
    }
    var two := Applicable(q, [b, c]);
    assert two == (if Filtered(q, b) then [b] else []) + last by {
      assert [b, c][1..] == [c];
      ApplicableStep(q, [b, c]);
    }
    var all := Applicable(q, [a, b, c]);
    assert all == (if Filtered(q, a) then [a] else []) + two by {
      assert [a, b, c][1..] == [b, c];
      ApplicableStep(q, [a, b, c]);
    }
    ConcatThree(all, two, last, if Filtered(q, a) then [a] else [], if Filtered(q, b) then [b] else []);
  }

  /** `UsedFilters` tests the three columns one after the other. */
  lemma UsedFiltersSteps(q: QueryParams)
    requires ParsedQuery(q)
    ensures UsedFilters(q) ==
      (if Filtered(q, "project_code") then ["project_code"] else []) +
      (if Filtered(q, "install_status") then ["install_status"] else []) +
      (if Filtered(q, "brand") then ["brand"] else [])
  {
    ApplicableOfThree(q, "project_code", "install_status", "brand");
  }

  /**
   * The conditions and their parameters line up: the `i`-th condition is
   * `column = ?` of an applied filter, and the `i`-th parameter is that
   * filter's stripped, non-blank value; the filters come in the fixed order,
   * each at most once.
   */
  lemma DataQueryAligned(q: QueryParams)
    requires ParsedQuery(q)
    ensures var used := UsedFilters(q);
      && Subsequence(used, FilterColumns)
      && (forall c :: c in used <==> c in FilterColumns && Filtered(q, c))
      && |Conditions(used)| == |FilterParams(q, used)| == |used| <= 3
      && forall i :: 0 <= i < |used| ==>
           Conditions(used)[i] == used[i] + " = ?" &&
           FilterParams(q, used)[i] == SqlText(FirstStripped(q, used[i])) &&
           FirstStripped(q, used[i]) != ""
  {
    var used := UsedFilters(q);
    SubsequenceLength(used, FilterColumns);
    forall i | 0 <= i < |used|
      ensures used[i] in q && FirstStripped(q, used[i]) != ""
      ensures Conditions(used)[i] == used[i] + " = ?"
      ensures FilterParams(q, used)[i] == SqlText(FirstStripped(q, used[i]))
    {
      assert used[i] in used;
      ConditionsAt(used, i);
      FilterParamsAt(q, used, i);
    }
  }

  /** With no filter applied the query has no `WHERE` clause. */
  lemma NoFilterNoWhere(q: QueryParams)
    requires ParsedQuery(q)
    requires forall c :: c in FilterColumns ==> !Filtered(q, c)
    ensures WhereClause(Conditions(UsedFilters(q))) == ""
  {
    UsedFiltersSteps(q);
    assert !Filtered(q, FilterColumns[0]) && !Filtered(q, FilterColumns[1]) && !Filtered(q, FilterColumns[2]);
  }

  // ---------------------------------------------------------------------
  // The data response
  // ---------------------------------------------------------------------

  /** A result row: one value per selected column, in `ResultColumns` order. */
  type DbRow = row: seq<Json> | |row| == |ResultColumns| witness seq(|ResultColumns|, _ => JNull)

  /** No column is selected twice. */
  lemma ResultColumnsDistinct()
    ensures forall i, j :: 0 <= i < j < |ResultColumns| ==> ResultColumns[i] != ResultColumns[j]
  {
  }

  /** The dictionary `get_data` builds from a row, one entry per selected column. */
  function RowToDict(row: DbRow): Dict<Json>
  {
    seq(|ResultColumns|, i requires 0 <= i < |ResultColumns| => (ResultColumns[i], row[i]))
  }

  /** Each selected column's name finds its value in the row's dictionary (`row["brand"]`). */
  lemma RowToDictByName(row: DbRow, c: nat)
    requires c < |ResultColumns|
    ensures Lookup(RowToDict(row), ResultColumns[c]) == Some(row[c])
  {
    var d := RowToDict(row);
    ResultColumnsDistinct();
    assert DistinctKeys(d);
    LookupAt(d, c);
  }

  /** The rows as objects, in order: `[dict(row) for row in rows]`. */
  function RowObjects(rows: seq<DbRow>): (objects: seq<Json>)
    ensures |objects| == |rows|
  {
    if rows == [] then []
    else RowObjects(rows[..|rows| - 1]) + [JObject(RowToDict(rows[|rows| - 1]))]
  }

  /** The `i`-th object is the dictionary of the `i`-th row. */
  lemma {:induction false} RowObjectsAt(rows: seq<DbRow>, i: nat)
    requires i < |rows|
    ensures RowObjects(rows)[i] == JObject(RowToDict(rows[i]))
  {
    var init := rows[..|rows| - 1];
    if i < |rows| - 1 {
      assert init[i] == rows[i];
      RowObjectsAt(init, i);
    }
  }

  /** The response object of `get_data`. */
  function DataResponse(rows: seq<DbRow>, limit: int, offset: int): Dict<Json>
  {
    [ ("data", JArray(RowObjects(rows))),
      ("pagination", JObject([("limit", JInt(limit)), ("offset", JInt(offset)), ("returned_count", JInt(|rows|))])) ]
  }

  /**
   * The response carries one object per row, each giving every selected
   * column its value, and echoes the limit and offset used with
   * `returned_count` equal to the number of objects in `data`.
   */
  lemma DataResponseContents(rows: seq<DbRow>, limit: int, offset: int)
    ensures var response := DataResponse(rows, limit, offset);
      && Lookup(response, "data").Some? && Lookup(response, "data").value.JArray?
      && var data := Lookup(response, "data").value.items;
      && |data| == |rows|
      && (forall i, c :: 0 <= i < |rows| && 0 <= c < |ResultColumns| ==>
            data[i].JObject? && Lookup(data[i].fields, ResultColumns[c]) == Some(rows[i][c]))
      && Lookup(response, "pagination") ==
           Some(JObject([("limit", JInt(limit)), ("offset", JInt(offset)), ("returned_count", JInt(|data|))]))
  {
    var response := DataResponse(rows, limit, offset);
    assert Lookup(response, "data") == Some(JArray(RowObjects(rows)));
    assert response[1..][0].0 == "pagination";
    forall i | 0 <= i < |rows|
      ensures RowObjects(rows)[i] == JObject(RowToDict(rows[i]))
    {
      RowObjectsAt(rows, i);
    }
    forall i, c | 0 <= i < |rows| && 0 <= c < |ResultColumns|
      ensures Lookup(RowToDict(rows[i]), ResultColumns[c]) == Some(rows[i][c])
    {
      RowToDictByName(rows[i], c);
    }
  }

  /** The loop of `get_data` that turns each fetched row into its dictionary. */
  method BuildDataResponse(rows: seq<DbRow>, limit: int, offset: int) returns (response: Dict<Json>)
    ensures response == DataResponse(rows, limit, offset)
  {
    var data: seq<Json> := [];
    for k := 0 to |rows|
      invariant data == RowObjects(rows[..k])
    {
      var row := rows[k];
      assert rows[..k + 1][..k] == rows[..k];
      data := data + [JObject(RowToDict(row))];
    }
    assert rows[..|rows|] == rows;
    response := [ ("data", JArray(data)),
                  ("pagination", JObject([("limit", JInt(limit)), ("offset", JInt(offset)), ("returned_count", JInt(|data|))])) ];
  }

  /**
   * `get_data`: build the query, run it (`execute` stands for the
   * database), and shape the rows into the response.
   */
  method GetDataResponse(queryParams: QueryParams, execute: (string, seq<SqlParam>) -> seq<DbRow>)
    returns (sql: string, params: seq<SqlParam>, response: Dict<Json>)
    requires ParsedQuery(queryParams)
    ensures Lookup(response, "pagination").Some?
    ensures var (limit, offset) := Pagination(queryParams);
      response == DataResponse(execute(sql, params), limit, offset) &&
      |params| >= 2 && params[|params| - 2..] == [SqlInt(limit), SqlInt(offset)]
    ensures sql == BaseQuery + WhereClause(Conditions(UsedFilters(queryParams))) + OrderClause
    ensures params == FilterParams(queryParams, UsedFilters(queryParams)) +
                      [SqlInt(Pagination(queryParams).0), SqlInt(Pagination(queryParams).1)]
  {
    var limit, offset;
    sql, params, limit, offset := BuildDataQuery(queryParams);
    var rows := execute(sql, params);
    response := BuildDataResponse(rows, limit, offset);
    DataResponseContents(rows, limit, offset);
  }
}

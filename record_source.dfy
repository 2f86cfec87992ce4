/**
 * The fetching half of `ApiService` (src/services/apiService.js): which
 * query parameters `fetchData` sends, how it turns a failed response into
 * an error message, and the fallbacks of `getAllData`, `getStats` and
 * `getProjects`. The network itself is not modelled: what `fetch` did is an
 * `Outcome` given as input.
 */
module RecordSource {
  import opened Wrappers
  import opened Strings
  import opened Records
  import opened Dicts

  // ---------------------------------------------------------------------
  // Query parameters
  // ---------------------------------------------------------------------

  /** A JavaScript value used as a query parameter. */
  datatype JsValue = JsNull | JsUndefined | JsString(s: string) | JsNumber(n: int)

  /** A plain JavaScript object: its own keys in insertion order, each with its value. */
  type JsObject = Dict<JsValue>

  /** The parameter is neither `null`, `undefined` nor `''`, so `fetchData` sends it. */
  predicate IsSent(v: JsValue) {
    !(v.JsNull? || v.JsUndefined? || v == JsString(""))
  }

  /** How `URLSearchParams.append` renders a value as text. */
  function ParamText(v: JsValue): string {
    match v
    case JsNull => "null"
    case JsUndefined => "undefined"
    case JsString(s) => s
    case JsNumber(n) => IntToDecimal(n)
  }

  /** The `(key, text)` pairs `fetchData` appends to the URL, in key order. */
  function SearchParams(params: JsObject): (query: seq<(string, string)>)
    ensures |query| <= |params|
  {
    if params == [] then []
    else
      var query := SearchParams(params[..|params| - 1]);
      var (key, value) := params[|params| - 1];
      if IsSent(value) then query + [(key, ParamText(value))] else query
  }

  /**
   * Exactly the parameters that are sent appear in the query, each with its
   * rendered value; a `null`, `undefined` or `''` parameter never does.
   */
  lemma {:induction false} SearchParamsExact(params: JsObject)
    ensures forall i :: 0 <= i < |params| && IsSent(params[i].1) ==>
      (params[i].0, ParamText(params[i].1)) in SearchParams(params)
    ensures forall p :: p in SearchParams(params) ==>
      exists i :: 0 <= i < |params| && IsSent(params[i].1) && p == (params[i].0, ParamText(params[i].1))
  {
    if params != [] {
      var front := params[..|params| - 1];
      SearchParamsExact(front);
      forall p | p in SearchParams(params)
        ensures exists i :: 0 <= i < |params| && IsSent(params[i].1) && p == (params[i].0, ParamText(params[i].1))
      {
        if p in SearchParams(front) {
          var i :| 0 <= i < |front| && IsSent(front[i].1) && p == (front[i].0, ParamText(front[i].1));
          assert params[i] == front[i];
        } else {
          assert p == (params[|params| - 1].0, ParamText(params[|params| - 1].1));
        }
      }
      forall i | 0 <= i < |params| && IsSent(params[i].1)
        ensures (params[i].0, ParamText(params[i].1)) in SearchParams(params)
      {
        if i < |front| {
          assert params[i] == front[i];
        }
      }
    }
  }

  /** The `forEach` of `fetchData` that appends each sent parameter to `url.searchParams`. */
  method AppendSearchParams(params: JsObject) returns (searchParams: seq<(string, string)>)
    ensures searchParams == SearchParams(params)
  {
    searchParams := [];
    for i := 0 to |params|
      invariant searchParams == SearchParams(params[..i])
    {
      assert params[..i + 1][..i] == params[..i];
      var (key, value) := params[i];
      if value != JsNull && value != JsUndefined && value != JsString("") {
        searchParams := searchParams + [(key, ParamText(value))];
      }
    }
    assert params[..|params|] == params;
  }

  // ---------------------------------------------------------------------
  // Requests and their outcomes
  // ---------------------------------------------------------------------

  /** `CONFIG.API_BASE_URL`. */
  const ApiBaseUrl: string := "/api"

  /** The path and query string of a `GET`. */
  datatype Request = Request(path: string, query: seq<(string, string)>)

  /** The request `fetchData(endpoint, params)` sends. */
  function RequestFor(endpoint: string, params: JsObject): Request {
    Request(ApiBaseUrl + endpoint, SearchParams(params))
  }

  /**
   * The body as `response.json()` reads it: JSON with its (possibly empty)
   * `error` field and its value, or text that is not JSON, which makes
   * `response.json()` throw.
   */
  datatype Body<T> = Json(errorField: string, value: T) | NotJson(parseError: string)

  /**
   * What `fetch` did: it resolved with a response (status, `ok`, status
   * text, body), or it rejected with an error of the given name and message.
   */
  datatype Outcome<T> =
    | Responded(ok: bool, status: nat, statusText: string, body: Body<T>)
    | Rejected(name: string, message: string)

  /** The message that replaces a `TypeError` from `fetch`. */
  const ConnectivityMessage: string :=
    "Unable to connect to the server. Please check if the application is running."

  const HttpErrorPrefix: string := "HTTP error! status: "

  /** The message of the error thrown for a response that is not `ok`. */
  function HttpErrorMessage<T>(status: nat, statusText: string, body: Body<T>): string {
    var base := HttpErrorPrefix + NatToDecimal(status);
    match body
    case Json(error, _) => if error != "" then base + " - " + error else base
    case NotJson(_) => base + " - " + statusText
  }

  /**
   * `fetchData`: the parsed body of an `ok` response, or the message of the
   * error it throws.
   */
  function FetchData<T>(outcome: Outcome<T>): (r: Result<T, string>)
    ensures r.Ok? <==> outcome.Responded? && outcome.ok && outcome.body.Json?
    ensures r.Ok? ==> r.value == outcome.body.value
    ensures outcome.Responded? && !outcome.ok ==>
      r.Err? && StartsWith(r.error, HttpErrorPrefix + NatToDecimal(outcome.status))
    ensures outcome.Responded? && !outcome.ok ==>
      r == Err(HttpErrorMessage(outcome.status, outcome.statusText, outcome.body))
    ensures outcome.Rejected? && outcome.name == "TypeError" && Contains(outcome.message, "fetch") ==>
      r == Err(ConnectivityMessage)
    ensures outcome.Rejected? && !(outcome.name == "TypeError" && Contains(outcome.message, "fetch")) ==>
      r == Err(outcome.message)
  {
    match outcome
    case Rejected(name, message) =>
      if name == "TypeError" && Contains(message, "fetch") then Err(ConnectivityMessage) else Err(message)
    case Responded(ok, status, statusText, body) =>
      if !ok then
        var m := HttpErrorMessage(status, statusText, body);
        assert m[..|HttpErrorPrefix + NatToDecimal(status)|] == HttpErrorPrefix + NatToDecimal(status);
        Err(m)
      else
        match body
        case Json(_, value) => Ok(value)
        case NotJson(e) => Err(e)
  }

  /**
   * The HTTP error message names the status and adds the body's `error`
   * field when there is one, or the status text when the body is not JSON.
   */
  lemma HttpErrorSuffix<T>(status: nat, statusText: string, body: Body<T>)
    ensures var base := HttpErrorPrefix + NatToDecimal(status);
      HttpErrorMessage(status, statusText, body) ==
        if body.NotJson? then base + " - " + statusText
        else if body.errorField != "" then base + " - " + body.errorField
        else base
  {
  }

  // ---------------------------------------------------------------------
  // getAllData, getStats, getProjects
  // ---------------------------------------------------------------------

  /** The body of `/api/data`: `{ data: [...] }`, the array possibly missing. */
  datatype DataBody = DataBody(data: Option<seq<RawRecord>>)

  /** `response.data || []`. */
  function RowsOf(body: DataBody): seq<RawRecord> {
    body.data.GetOr([])
  }

  /** The parameters of `getAllData(filters)`: `{ limit: 1000, offset: 0, ...filters }`. */
  function AllDataParams(filters: JsObject): JsObject {
    Spread([("limit", JsNumber(1000)), ("offset", JsNumber(0))], filters)
  }

  /** `getAllData`: the fetched rows, or `[]` whatever went wrong. */
  function GetAllData(outcome: Outcome<DataBody>): (rows: seq<RawRecord>)
    ensures FetchData(outcome).Err? ==> rows == []
    ensures FetchData(outcome).Ok? ==> rows == outcome.body.value.data.GetOr([])
  {
    match FetchData(outcome)
    case Ok(body) => RowsOf(body)
    case Err(_) => []
  }

  /** One month of `monthly_breakdown`. */
  datatype MonthCount = MonthCount(year: int, month: int, count: nat)

  /** The body of `/api/stats`. */
  datatype Stats = Stats(
    totalRecords: nat,
    uniqueProjects: nat,
    installStatusBreakdown: map<string, nat>,
    monthlyBreakdown: seq<MonthCount>,
    topBrands: map<string, nat>)

  /** The all-zero statistics `getStats` falls back to. */
  const EmptyStats: Stats := Stats(0, 0, map[], [], map[])

  /** `getStats`: the fetched statistics, or all zeros whatever went wrong. */
  function GetStats(outcome: Outcome<Stats>): (stats: Stats)
    ensures FetchData(outcome).Err? ==> stats == EmptyStats
    ensures FetchData(outcome).Ok? ==> stats == outcome.body.value
  {
    match FetchData(outcome)
    case Ok(s) => s
    case Err(_) => EmptyStats
  }

  /** One entry of `/api/projects`. */
  datatype Project = Project(projectCode: string, projectName: string, recordCount: nat, latestInstall: string)

  /** The body of `/api/projects`. */
  datatype ProjectList = ProjectList(projects: seq<Project>)

  /** `getProjects`: the fetched list, or `{ projects: [] }` whatever went wrong. */
  function GetProjects(outcome: Outcome<ProjectList>): (list: ProjectList)
    ensures FetchData(outcome).Err? ==> list == ProjectList([])
    ensures FetchData(outcome).Ok? ==> list == outcome.body.value
  {
    match FetchData(outcome)
    case Ok(p) => p
    case Err(_) => ProjectList([])
  }

  /** `getMockData`: the single demonstration room. */
  const MockData: seq<RoomSummary> := [
    RoomSummary("70401-0209", "นาย ฉมาดล เดชารัมย์", "177/210",
                "เครื่องปรับอากาศ SAMSUNG 9400 BTU", "", "", "", "2024-07-25", "70401-0209")
  ]

  /**
   * `getAllData()` asks for `limit=1000&offset=0` at `/api/data`; the room
   * details ask for `limit=1000` only, with no project filter.
   */
  lemma RequestsSent()
    ensures RequestFor("/data", AllDataParams([])) == Request("/api/data", [("limit", "1000"), ("offset", "0")])
    ensures RequestFor("/data", [("limit", JsNumber(1000))]) == Request("/api/data", [("limit", "1000")])
  {
    assert NatToDecimal(1000) == "1000" by {
      assert NatToDecimal(1) == "1";
      assert NatToDecimal(10) == "10";
      assert NatToDecimal(100) == "100";
    }
    assert NatToDecimal(0) == "0";
    var p: JsObject := [("limit", JsNumber(1000)), ("offset", JsNumber(0))];
    assert AllDataParams([]) == p;
    assert p[..1] == [("limit", JsNumber(1000))];
    assert p[..1][..0] == [];
  }

  /** The three fallbacks never let a failure through, and a missing `data` array reads as `[]`. */
  lemma FallbacksNeverFail(data: Outcome<DataBody>, stats: Outcome<Stats>, projects: Outcome<ProjectList>)
    ensures data.Rejected? ==> GetAllData(data) == []
    ensures stats.Rejected? ==> GetStats(stats) == EmptyStats
    ensures projects.Rejected? ==> GetProjects(projects) == ProjectList([])
    ensures data.Responded? && data.ok && data.body.Json? && data.body.value.data.None? ==> GetAllData(data) == []
  {
  }
}

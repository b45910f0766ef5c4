/** The REST client of src/hooks/useFetchFromAPI.tsx: how a page's data source
    (a legacy CSV path or a logical name) becomes an API URL, how the JSON reply
    becomes the rows the pages see, and the two NPL summaries built from them.
    The base URL and the percent-encoding of `URLSearchParams` are left opaque:
    a URL is a path below the base plus, when there is one, the list of query
    parameters in the order they are appended. */
module ApiClient {
  import opened Wrappers
  import opened JsText
  import opened JsValues
  import opened Grouping

  // ---------------------------------------------------------------------------
  // Routes

  /** The page components that have a loan type of their own. */
  const RouteLoanTypes: map<string, string> :=
    map["Day7" := "7", "Day14" := "14", "Day21" := "21", "Day30" := "30", "OverallPerf" := "all"]

  /** `route.split('/').pop()?.replace('.csv', '') || route` */
  function ComponentName(route: string): string {
    var name := RemoveFirstString(LastPart(route, '/'), ".csv");
    if name == "" then route else name
  }

  /** `mapLoanTypeFromRoute`: a loan type only for the five known components. */
  function MapLoanTypeFromRoute(route: string): (t: Option<string>)
    ensures t.Some? <==> ComponentName(route) in RouteLoanTypes
    ensures t.Some? ==> t.value in {"7", "14", "21", "30", "all"}
  {
    var name := ComponentName(route);
    if name in RouteLoanTypes then Some(RouteLoanTypes[name]) else None
  }

  /** A CSV path `dir/k.csv` is looked up under its file name `k` alone. */
  lemma RouteOfCsvPath(dir: string, k: string)
    requires '/' !in k && '.' !in k
    ensures MapLoanTypeFromRoute(dir + "/" + k + ".csv")
            == if k in RouteLoanTypes then Some(RouteLoanTypes[k]) else None
  {
    var route := dir + "/" + k + ".csv";
    assert route == dir + ['/'] + (k + ".csv");
    SplitLast(dir, k + ".csv", '/');
    assert LastPart(route, '/') == k + ".csv";
    RemoveFirstStringSuffix(k, ".csv");
    assert ComponentName(route) == if k == "" then route else k;
    if k == "" {
      assert route[|dir|] == '/';
      NoRouteWithSlash(route);
    }
  }

  /** No component name holds a '/'. */
  lemma NoRouteWithSlash(r: string)
    requires '/' in r
    ensures r !in RouteLoanTypes
  {
    assert forall key :: key in RouteLoanTypes ==> '/' !in key;
  }

  /** The legacy data files `DataNew*.csv` name no component, so they are served
      by the general loan-data endpoint. */
  lemma DataNewFileHasNoRouteType(dir: string, k: string)
    requires '/' !in k && '.' !in k && IsPrefix("DataNew", k)
    ensures MapLoanTypeFromRoute(dir + "/" + k + ".csv") == None
  {
    RouteOfCsvPath(dir, k);
    assert k[0] == 'D' && k[1] == 'a';
  }

  // ---------------------------------------------------------------------------
  // Query parameters

  /** `FetchOptions`; `None` is an absent key. */
  datatype FetchOptions = FetchOptions(
    loanType: Option<string>,
    telco: Option<string>,
    days: Option<int>,
    startDate: Option<string>,
    endDate: Option<string>)

  /** A truthy string option. */
  predicate Given(o: Option<string>) {
    o.Some? && o.value != ""
  }

  /** A truthy number option. */
  predicate GivenDays(o: Option<int>) {
    o.Some? && o.value != 0
  }

  type Query = seq<(string, string)>

  /** The value each option contributes, if any. */
  function LoanTypeParam(opts: FetchOptions): Option<string> {
    if Given(opts.loanType) && opts.loanType.value != "all" then opts.loanType else None
  }

  function TelcoParam(opts: FetchOptions): Option<string> {
    if Given(opts.telco) then opts.telco else None
  }

  function DaysParam(opts: FetchOptions): Option<string> {
    if GivenDays(opts.days) then Some(IntToString(opts.days.value)) else None
  }

  function StartParam(opts: FetchOptions): Option<string> {
    if Given(opts.startDate) then opts.startDate else None
  }

  function EndParam(opts: FetchOptions): Option<string> {
    if Given(opts.endDate) then opts.endDate else None
  }

  function Param(name: string, value: Option<string>): Query {
    if value.Some? then [(name, value.value)] else []
  }

  /** The parameters `buildQueryParams` appends, in order. */
  function QueryParams(opts: FetchOptions): Query {
    Param("loan_type", LoanTypeParam(opts)) + Param("telco", TelcoParam(opts)) + Param("days", DaysParam(opts))
    + Param("start_date", StartParam(opts)) + Param("end_date", EndParam(opts))
  }

  /** `buildQueryParams`: one `append` per truthy option. */
  method BuildQueryParams(opts: FetchOptions) returns (params: Query)
    ensures params == QueryParams(opts)
  {
    params := [];
    if Given(opts.loanType) && opts.loanType.value != "all" {
      params := params + [("loan_type", opts.loanType.value)];
    }
    assert params == Param("loan_type", LoanTypeParam(opts));
    if Given(opts.telco) {
      params := params + [("telco", opts.telco.value)];
    }
    assert params == Param("loan_type", LoanTypeParam(opts)) + Param("telco", TelcoParam(opts));
    if GivenDays(opts.days) {
      params := params + [("days", IntToString(opts.days.value))];
    }
    assert params == Param("loan_type", LoanTypeParam(opts)) + Param("telco", TelcoParam(opts))
                     + Param("days", DaysParam(opts));
    if Given(opts.startDate) {
      params := params + [("start_date", opts.startDate.value)];
    }
    assert params == Param("loan_type", LoanTypeParam(opts)) + Param("telco", TelcoParam(opts))
                     + Param("days", DaysParam(opts)) + Param("start_date", StartParam(opts));
    if Given(opts.endDate) {
      params := params + [("end_date", opts.endDate.value)];
    }
  }

  /** `params.get(name)`: the first value under `name`. */
  function Lookup(q: Query, name: string): Option<string> {
    if q == [] then None else if q[0].0 == name then Some(q[0].1) else Lookup(q[1..], name)
  }

  /** Where a parameter name stands in the order of appends. */
  function ParamRank(name: string): nat {
    if name == "loan_type" then 0
    else if name == "telco" then 1
    else if name == "days" then 2
    else if name == "start_date" then 3
    else if name == "end_date" then 4
    else 5
  }

  predicate RankOrdered(q: Query) {
    forall i, j :: 0 <= i < j < |q| ==> ParamRank(q[i].0) < ParamRank(q[j].0)
  }

  lemma LookupAppend(a: Query, b: Query, name: string)
    ensures Lookup(a + b, name) == if Lookup(a, name).Some? then Lookup(a, name) else Lookup(b, name)
  {
    if a != [] {
      assert (a + b)[1..] == a[1..] + b;
      LookupAppend(a[1..], b, name);
    } else {
      assert a + b == b;
    }
  }

  /** Appending a parameter that ranks after everything present keeps the order. */
  lemma RankOrderedSnoc(q: Query, name: string, value: Option<string>)
    requires RankOrdered(q)
    requires forall i :: 0 <= i < |q| ==> ParamRank(q[i].0) < ParamRank(name)
    ensures RankOrdered(q + Param(name, value))
    ensures forall i :: 0 <= i < |q + Param(name, value)| ==> ParamRank((q + Param(name, value))[i].0) <= ParamRank(name)
  {
  }

  lemma LookupParam(name: string, value: Option<string>, key: string)
    ensures Lookup(Param(name, value), key) == if name == key then value else None
  {
  }

  /** Looking a name up in the query looks it up in each option's part in turn. */
  lemma LookupQuery(opts: FetchOptions, key: string)
    ensures Lookup(QueryParams(opts), key)
      == (if key == "loan_type" then LoanTypeParam(opts)
          else if key == "telco" then TelcoParam(opts)
          else if key == "days" then DaysParam(opts)
          else if key == "start_date" then StartParam(opts)
          else if key == "end_date" then EndParam(opts)
          else None)
  {
    var l, t, d := Param("loan_type", LoanTypeParam(opts)), Param("telco", TelcoParam(opts)), Param("days", DaysParam(opts));
    var s, e := Param("start_date", StartParam(opts)), Param("end_date", EndParam(opts));
    LookupAppend(l + t + d + s, e, key);
    LookupAppend(l + t + d, s, key);
    LookupAppend(l + t, d, key);
    LookupAppend(l, t, key);
    LookupParam("loan_type", LoanTypeParam(opts), key);
    LookupParam("telco", TelcoParam(opts), key);
    LookupParam("days", DaysParam(opts), key);
    LookupParam("start_date", StartParam(opts), key);
    LookupParam("end_date", EndParam(opts), key);
  }

  /** Each option appears exactly when it is truthy (and, for the loan type, not
      "all"), under its own name and with its value. */
  lemma QueryParamsSpec(opts: FetchOptions)
    ensures var q := QueryParams(opts);
      && Lookup(q, "loan_type") == (if Given(opts.loanType) && opts.loanType.value != "all" then opts.loanType else None)
      && Lookup(q, "telco") == (if Given(opts.telco) then opts.telco else None)
      && Lookup(q, "days") == (if GivenDays(opts.days) then Some(IntToString(opts.days.value)) else None)
      && Lookup(q, "start_date") == (if Given(opts.startDate) then opts.startDate else None)
      && Lookup(q, "end_date") == (if Given(opts.endDate) then opts.endDate else None)
  {
    LookupQuery(opts, "loan_type");
    LookupQuery(opts, "telco");
    LookupQuery(opts, "days");
    LookupQuery(opts, "start_date");
    LookupQuery(opts, "end_date");
  }

  /** The names come in the fixed order loan_type, telco, days, start_date,
      end_date, each at most once. */
  lemma QueryParamsOrdered(opts: FetchOptions)
    ensures RankOrdered(QueryParams(opts))
    ensures |QueryParams(opts)| <= 5
  {
    var l, t, d := Param("loan_type", LoanTypeParam(opts)), Param("telco", TelcoParam(opts)), Param("days", DaysParam(opts));
    var s := Param("start_date", StartParam(opts));
    assert ParamRank("loan_type") == 0 && ParamRank("telco") == 1 && ParamRank("days") == 2;
    assert ParamRank("start_date") == 3 && ParamRank("end_date") == 4;
    RankOrderedSnoc([], "loan_type", LoanTypeParam(opts));
    assert [] + l == l;
    RankOrderedSnoc(l, "telco", TelcoParam(opts));
    RankOrderedSnoc(l + t, "days", DaysParam(opts));
    RankOrderedSnoc(l + t + d, "start_date", StartParam(opts));
    RankOrderedSnoc(l + t + d + s, "end_date", EndParam(opts));
  }

  // ---------------------------------------------------------------------------
  // Endpoints

  /** A URL below the API base: its path, and its query string when it has one
      (possibly empty, which still leaves a trailing `?`). */
  datatype Url = Url(path: string, query: Option<Query>)

  /** The endpoint paths `getApiEndpoint` can produce. */
  const EndpointPaths: set<string> :=
    {"/loan-data", "/loan-data/7", "/loan-data/14", "/loan-data/21", "/loan-data/30", "/npl-tables", "/npl-data"}

  /** `getApiEndpoint` */
  function GetApiEndpoint(original: string, opts: FetchOptions): (u: Url)
    ensures u.path in EndpointPaths
    ensures u.query.Some? ==> u.query.value == QueryParams(opts)
    ensures u.query.None? <==> u.path == "/npl-data"
    ensures Contains(original, "DataNew") ==>
      u.path == (var t := MapLoanTypeFromRoute(original);
                 if t.Some? && t.value != "all" then "/loan-data/" + t.value else "/loan-data")
    ensures !Contains(original, "DataNew") && Contains(original, "npl-tables") ==> u.path == "/npl-tables"
    ensures (!Contains(original, "DataNew") && !Contains(original, "npl-tables")
             && (Contains(original, "npl") || Contains(original, "NPL"))) ==> u == Url("/npl-data", None)
    ensures (!Contains(original, "DataNew") && !Contains(original, "npl-tables")
             && !Contains(original, "npl") && !Contains(original, "NPL")) ==> u.path == "/loan-data"
  {
    if Contains(original, "DataNew") then
      var loanType := MapLoanTypeFromRoute(original);
      if loanType.Some? && loanType.value != "" && loanType.value != "all" then
        LoanDataPathKnown(loanType.value);
        Url("/loan-data/" + loanType.value, Some(QueryParams(opts)))
      else
        Url("/loan-data", Some(QueryParams(opts)))
    else if Contains(original, "npl-tables") then
      Url("/npl-tables", Some(QueryParams(opts)))
    else if Contains(original, "npl") || Contains(original, "NPL") then
      Url("/npl-data", None)
    else
      Url("/loan-data", Some(QueryParams(opts)))
  }

  lemma LoanDataPathKnown(t: string)
    requires t in {"7", "14", "21", "30"}
    ensures "/loan-data/" + t in EndpointPaths
  {
    if t == "7" {
      assert "/loan-data/" + t == "/loan-data/7";
    } else if t == "14" {
      assert "/loan-data/" + t == "/loan-data/14";
    } else if t == "21" {
      assert "/loan-data/" + t == "/loan-data/21";
    } else {
      assert "/loan-data/" + t == "/loan-data/30";
    }
  }

  /** A string lacking one of a pattern's characters does not contain it. */
  lemma LacksChar(s: string, t: string, i: nat)
    requires i < |t| && t[i] !in s
    ensures !Contains(s, t)
  {
    if Contains(s, t) {
      ContainsChar(s, t, i);
    }
  }

  /** A pattern found at some position is contained. */
  lemma {:induction false} ContainsAt(s: string, t: string, i: nat)
    requires i <= |s| && IsPrefix(t, s[i..])
    ensures Contains(s, t)
  {
    if i > 0 {
      assert s[1..][i - 1..] == s[i..];
      ContainsAt(s[1..], t, i - 1);
    }
  }

  /** `useFetchNPLData` asks for `npl-data`: the query-less `/npl-data` endpoint,
      whatever the options, so its start and end dates never reach the server. */
  lemma NplDataIgnoresOptions(opts: FetchOptions)
    ensures GetApiEndpoint("npl-data", opts) == Url("/npl-data", None)
  {
    NplTags("npl-data");
  }

  /** A name that starts with `npl` and lacks `D` and `b` holds `npl` but neither
      `DataNew` nor `npl-tables`. */
  lemma NplTags(name: string)
    requires 'D' !in name && 'b' !in name && IsPrefix("npl", name)
    ensures !Contains(name, "DataNew") && !Contains(name, "npl-tables") && Contains(name, "npl")
  {
    LacksChar(name, "DataNew", 0);
    LacksChar(name, "npl-tables", 6);
  }

  /** A `DataNew*.csv` path goes to the general loan-data endpoint with the
      options as its query. */
  lemma DataNewFileEndpoint(dir: string, k: string, opts: FetchOptions)
    requires '/' !in k && '.' !in k && IsPrefix("DataNew", k)
    ensures GetApiEndpoint(dir + "/" + k + ".csv", opts) == Url("/loan-data", Some(QueryParams(opts)))
  {
    var route := dir + "/" + k + ".csv";
    assert route[|dir| + 1..] == k + ".csv";
    assert IsPrefix("DataNew", route[|dir| + 1..]);
    ContainsAt(route, "DataNew", |dir| + 1);
    DataNewFileHasNoRouteType(dir, k);
  }

  // ---------------------------------------------------------------------------
  // The two entry points that supply defaults

  /** `getLoanTypeFromPath` in `useFetch`: the first tag found wins. */
  function GetLoanTypeFromPath(path: string): (t: Option<string>)
    ensures t.Some? ==> Contains(path, "DataNew")
    ensures t.Some? ==> t.value in {"7", "14", "21", "30", "all"}
    ensures Contains(path, "DataNew7") ==> t == Some("7")
    ensures !Contains(path, "DataNew7") && Contains(path, "DataNew14") ==> t == Some("14")
    ensures (!Contains(path, "DataNew7") && !Contains(path, "DataNew14") && Contains(path, "DataNew21"))
            ==> t == Some("21")
    ensures (!Contains(path, "DataNew7") && !Contains(path, "DataNew14") && !Contains(path, "DataNew21")
             && Contains(path, "DataNew30")) ==> t == Some("30")
    ensures (!Contains(path, "DataNew7") && !Contains(path, "DataNew14") && !Contains(path, "DataNew21")
             && !Contains(path, "DataNew30") && Contains(path, "DataNew.csv")) ==> t == Some("all")
    ensures t.None? <==> !Contains(path, "DataNew7") && !Contains(path, "DataNew14") && !Contains(path, "DataNew21")
                         && !Contains(path, "DataNew30") && !Contains(path, "DataNew.csv")
  {
    if Contains(path, "DataNew7") then (ContainsPrefixOf(path, "DataNew7", 7); assert "DataNew7"[..7] == "DataNew"; Some("7"))
    else if Contains(path, "DataNew14") then (ContainsPrefixOf(path, "DataNew14", 7); assert "DataNew14"[..7] == "DataNew"; Some("14"))
    else if Contains(path, "DataNew21") then (ContainsPrefixOf(path, "DataNew21", 7); assert "DataNew21"[..7] == "DataNew"; Some("21"))
    else if Contains(path, "DataNew30") then (ContainsPrefixOf(path, "DataNew30", 7); assert "DataNew30"[..7] == "DataNew"; Some("30"))
    else if Contains(path, "DataNew.csv") then (ContainsPrefixOf(path, "DataNew.csv", 7); assert "DataNew.csv"[..7] == "DataNew"; Some("all"))
    else None
  }

  /** A string containing a pattern contains every prefix of the pattern. */
  lemma {:induction false} ContainsPrefixOf(s: string, t: string, n: nat)
    requires n <= |t| && Contains(s, t)
    ensures Contains(s, t[..n])
  {
    if !IsPrefix(t, s) {
      ContainsPrefixOf(s[1..], t, n);
    }
  }

  /** In a string whose only occurrence of a pattern's first character is at
      `p`, the pattern can only be found at `p`. */
  lemma {:induction false} ContainsOnlyAt(s: string, t: string, p: nat)
    requires t != [] && p < |s|
    requires forall q :: 0 <= q < |s| && q != p ==> s[q] != t[0]
    ensures Contains(s, t) ==> IsPrefix(t, s[p..])
  {
    if Contains(s, t) {
      if IsPrefix(t, s) {
        assert s[0] == t[0];
      } else {
        assert Contains(s[1..], t);
        if p == 0 {
          ContainsChar(s[1..], t, 0);
        } else {
          assert s[1..][p - 1..] == s[p..];
          ContainsOnlyAt(s[1..], t, p - 1);
        }
      }
    }
  }

  /** The only `D` of `dir/rest` is the first character of `rest` when `dir`
      holds none and `rest` holds no other. */
  lemma OnlyOneD(dir: string, rest: string)
    requires 'D' !in dir && rest != [] && 'D' !in rest[1..]
    ensures var path := dir + "/" + rest;
      forall q :: 0 <= q < |path| && q != |dir| + 1 ==> path[q] != 'D'
  {
    var path := dir + "/" + rest;
    forall q | 0 <= q < |path| && q != |dir| + 1
      ensures path[q] != 'D'
    {
      if q < |dir| {
        assert path[q] == dir[q];
      } else if q > |dir| + 1 {
        assert path[q] == rest[1..][q - |dir| - 2];
      }
    }
  }

  /** In `dir/rest`, with its only `D` at the head of `rest`, a tag starting
      with `D` is found exactly when it begins `rest`. */
  lemma TagAtFile(dir: string, rest: string, tag: string)
    requires 'D' !in dir && rest != [] && 'D' !in rest[1..] && tag != [] && tag[0] == 'D'
    ensures Contains(dir + "/" + rest, tag) <==> IsPrefix(tag, rest)
  {
    var path := dir + "/" + rest;
    assert path[|dir| + 1..] == rest;
    OnlyOneD(dir, rest);
    ContainsOnlyAt(path, tag, |dir| + 1);
    if IsPrefix(tag, rest) {
      ContainsAt(path, tag, |dir| + 1);
    }
  }

  /** The legacy data files `dir/DataNew7.csv`, ... `dir/DataNew30.csv` carry
      their own loan type and `dir/DataNew.csv` carries "all", provided the
      directory holds no `D`. */
  lemma DataNewFileLoanType(dir: string, d: string)
    requires 'D' !in dir && d in {"7", "14", "21", "30", ""}
    ensures GetLoanTypeFromPath(dir + "/DataNew" + d + ".csv") == Some(if d == "" then "all" else d)
  {
    var rest := "DataNew" + d + ".csv";
    assert dir + "/DataNew" + d + ".csv" == dir + "/" + rest;
    if d == "7" {
      assert rest == "DataNew7.csv";
      FileOfTag(dir, rest, 0);
    } else if d == "14" {
      assert rest == "DataNew14.csv";
      FileOfTag(dir, rest, 1);
    } else if d == "21" {
      assert rest == "DataNew21.csv";
      FileOfTag(dir, rest, 2);
    } else if d == "30" {
      assert rest == "DataNew30.csv";
      FileOfTag(dir, rest, 3);
    } else {
      assert rest == "DataNew.csv";
      FileOfTag(dir, rest, 4);
    }
  }

  /** The tags `getLoanTypeFromPath` tests, in order, and the types they give. */
  const FileTags: seq<string> := ["DataNew7", "DataNew14", "DataNew21", "DataNew30", "DataNew.csv"]
  const FileTypes: seq<string> := ["7", "14", "21", "30", "all"]

  /** The file named by the tag at position `k` yields that tag's type. */
  lemma FileOfTag(dir: string, rest: string, k: nat)
    requires 'D' !in dir && k < 5
    requires rest == FileTags[k] + (if k < 4 then ".csv" else "")
    ensures GetLoanTypeFromPath(dir + "/" + rest) == Some(FileTypes[k])
  {
    assert 'D' !in rest[1..] by {
      assert rest[1..] == FileTags[k][1..] + (if k < 4 then ".csv" else "");
    }
    assert IsPrefix(FileTags[k], rest) by {
      assert rest[..|FileTags[k]|] == FileTags[k];
    }
    forall j | 0 <= j < k
      ensures !IsPrefix(FileTags[j], rest)
    {
      assert rest[7] != FileTags[j][7];
    }
    TagAtFile(dir, rest, FileTags[0]);
    TagAtFile(dir, rest, FileTags[k]);
    if k > 1 {
      TagAtFile(dir, rest, FileTags[1]);
    }
    if k > 2 {
      TagAtFile(dir, rest, FileTags[2]);
    }
    if k > 3 {
      TagAtFile(dir, rest, FileTags[3]);
    }
  }

  /** The options of the compatibility hook `useFetch(filePath)`. */
  function CompatOptions(path: string): FetchOptions {
    FetchOptions(GetLoanTypeFromPath(path), Some("both"), Some(30), None, None)
  }

  /** `useFetch` on a `DataNew*.csv` file reaches `/loan-data` with the file's
      loan type (unless it is "all"), telco "both" and 30 days as its query. */
  lemma CompatEndpoint(dir: string, k: string)
    requires '/' !in k && '.' !in k && IsPrefix("DataNew", k)
    ensures var path := dir + "/" + k + ".csv";
      var u := GetApiEndpoint(path, CompatOptions(path));
      && u.path == "/loan-data"
      && Lookup(u.query.value, "telco") == Some("both")
      && Lookup(u.query.value, "days") == Some(IntToString(30))
      && Lookup(u.query.value, "loan_type")
         == (var t := GetLoanTypeFromPath(path); if t.Some? && t.value != "all" then t else None)
  {
    var path := dir + "/" + k + ".csv";
    DataNewFileEndpoint(dir, k, CompatOptions(path));
    QueryParamsSpec(CompatOptions(path));
  }

  /** `useFetchLoanData(options)`: `{telco: 'both', days: 7, ...options}`, so a
      key the caller gives overrides the default. */
  function LoanDataOptions(opts: FetchOptions): (o: FetchOptions)
    ensures o.telco == if opts.telco.Some? then opts.telco else Some("both")
    ensures o.days == if opts.days.Some? then opts.days else Some(7)
    ensures o.loanType == opts.loanType && o.startDate == opts.startDate && o.endDate == opts.endDate
  {
    opts.(telco := if opts.telco.Some? then opts.telco else Some("both"),
          days := if opts.days.Some? then opts.days else Some(7))
  }

  /** A name without `D`, `p` or `N` holds none of the patterns `getApiEndpoint`
      looks for. */
  lemma Untagged(name: string)
    requires 'D' !in name && 'p' !in name && 'N' !in name
    ensures !Contains(name, "DataNew") && !Contains(name, "npl-tables")
    ensures !Contains(name, "npl") && !Contains(name, "NPL")
  {
    LacksChar(name, "DataNew", 0);
    LacksChar(name, "npl-tables", 1);
    LacksChar(name, "npl", 1);
    LacksChar(name, "NPL", 0);
  }

  /** `useFetchLoanData` always asks the general loan-data endpoint. */
  lemma LoanDataEndpoint(opts: FetchOptions)
    ensures GetApiEndpoint("loan-data", LoanDataOptions(opts)) == Url("/loan-data", Some(QueryParams(LoanDataOptions(opts))))
  {
    Untagged("loan-data");
  }

  // ---------------------------------------------------------------------------
  // Response dispatch

  /** What a key of the reply object holds, as far as the dispatch can tell:
      something falsy, an array of rows, or some other truthy value. */
  datatype Member = Falsy | Rows(rows: seq<Row>) | OtherTruthy

  /** The parsed JSON reply. */
  datatype Body =
    | NullBody
    | ObjectBody(data: Member, nplData: Member)
    | ArrayBody(items: seq<Row>)
    | ScalarBody

  datatype Parsed = Json(body: Body) | Unparsable(message: string)

  /** What `fetch` gave: a rejection, or a reply with its status and body. */
  datatype Response = NetworkFailure(message: string) | Reply(ok: bool, status: int, parsed: Parsed)

  /** What the hook exposes afterwards: the rows and no error, a truthy `data`
      that is not an array (stored as is), or no rows and the error message. */
  datatype Outcome = Loaded(rows: seq<Row>) | LoadedNonArray | Failed(message: string)

  /** One `npl_data` item rewritten to the loan-record shape (lines 140-177). */
  const NplCarriedKeys: set<string> := {
    "total_balance", "within_tenure", "arrears_30_days", "arrears_31_60_days", "arrears_61_90_days",
    "arrears_91_120_days", "arrears_121_150_days", "arrears_151_180_days", "arrears_181_plus_days",
    "arrears_percentage", "unrecovered_percentage_net", "net_recovered_value"}

  const NplZeroKeys: set<string> := {
    "qualified_base", "unique_users", "overall_unique_users", "lending_transactions", "gross_lent",
    "principal_lent", "service_fee_lent", "late_fees_charged", "setup_fees_charged", "interest_fees_charged",
    "recovery_transactions", "gross_recovered", "principal_recovered", "service_fee_recovered",
    "late_fees_recovered", "setup_fees_recovered", "interest_fees_recovered"}

  const NplKeys: set<string> := {"date", "telco", "country", "loan_type", "fx_rate"} + NplCarriedKeys + NplZeroKeys

  /** The value the rewritten row holds under `k`. */
  function NplValue(item: Row, k: string): Cell {
    if k in NplZeroKeys then Number(0.0, "0")
    else if k in NplCarriedKeys then OrZero(Get(item, k))
    else if k == "date" then OrEmpty(Get(item, "report_date"))
    else if k == "telco" then Text("Airtel")
    else if k == "country" then Text("Zambia")
    else if k == "loan_type" then OrEmpty(Get(item, "loan_type"))
    else Number(1.0, "1")
  }

  function NplRow(item: Row): (r: Row)
    ensures r.Keys == NplKeys
    ensures forall k :: k in NplKeys ==> Get(r, k) == NplValue(item, k)
  {
    map k | k in NplKeys :: NplValue(item, k)
  }

  /** The three groups of keys share no key. */
  lemma NplKeyGroupsDisjoint()
    ensures forall k :: k in NplCarriedKeys ==> k !in NplZeroKeys
    ensures forall k :: k in {"date", "telco", "country", "loan_type", "fx_rate"} ==> k !in NplZeroKeys && k !in NplCarriedKeys
  {
  }

  /** The rewritten row carries no lending or recovery flow. */
  lemma NplRowFlowsZero(item: Row)
    ensures forall k :: k in NplZeroKeys ==> Get(NplRow(item), k) == Number(0.0, "0")
  {
  }

  /** It keeps the balance and arrears figures, a falsy one read as 0. */
  lemma NplRowCarried(item: Row)
    ensures forall k :: k in NplCarriedKeys ==> Get(NplRow(item), k) == OrZero(Get(item, k))
  {
    NplKeyGroupsDisjoint();
  }

  /** It is an Airtel Zambia row at rate 1, dated by its report date, with its
      loan type (a falsy one read as ""). */
  lemma NplRowIdentity(item: Row)
    ensures Get(NplRow(item), "telco") == Text("Airtel") && Get(NplRow(item), "country") == Text("Zambia")
    ensures Get(NplRow(item), "fx_rate") == Number(1.0, "1")
    ensures Get(NplRow(item), "date") == OrEmpty(Get(item, "report_date"))
    ensures Get(NplRow(item), "loan_type") == OrEmpty(Get(item, "loan_type"))
  {
    NplKeyGroupsDisjoint();
  }

  /** The `try` block of `fetchData` and its `catch`. */
  function Dispatch(resp: Response): Outcome {
    match resp
    case NetworkFailure(m) => Failed(m)
    case Reply(ok, status, parsed) =>
      if !ok then Failed("HTTP error! status: " + IntToString(status))
      else
        match parsed
        case Unparsable(m) => Failed(m)
        case Json(body) =>
          match body
          case NullBody => Failed("Cannot read properties of null (reading 'data')")
          case ScalarBody => Loaded([])
          case ArrayBody(items) => Loaded(items)
          case ObjectBody(data, npl) =>
            if data.Rows? then Loaded(data.rows)
            else if data.OtherTruthy? then LoadedNonArray
            else if npl.Rows? then Loaded(MapSeq(npl.rows, NplRow))
            else if npl.OtherTruthy? then Failed("result.npl_data.map is not a function")
            else Loaded([])
  }

  /** How each reply ends: an error for a failed request, an unreadable or null
      body, or an `npl_data` that is not an array; a truthy `data` as it is, with
      no renaming or parsing of its rows; else `npl_data` rewritten row by row;
      else the body itself when it is an array, and otherwise no rows. */
  lemma DispatchSpec(resp: Response)
    ensures resp.NetworkFailure? ==> Dispatch(resp) == Failed(resp.message)
    ensures resp.Reply? && !resp.ok ==> Dispatch(resp) == Failed("HTTP error! status: " + IntToString(resp.status))
    ensures Dispatch(resp).Failed? <==>
      || resp.NetworkFailure?
      || !resp.ok
      || resp.parsed.Unparsable?
      || resp.parsed.body.NullBody?
      || (resp.parsed.body.ObjectBody? && resp.parsed.body.data.Falsy? && resp.parsed.body.nplData.OtherTruthy?)
    ensures resp.Reply? && resp.ok && resp.parsed.Json? ==>
      var body := resp.parsed.body;
      && (body.ObjectBody? && body.data.Rows? ==> Dispatch(resp) == Loaded(body.data.rows))
      && (body.ObjectBody? && body.data.OtherTruthy? ==> Dispatch(resp) == LoadedNonArray)
      && (body.ObjectBody? && body.data.Falsy? && body.nplData.Rows? ==>
            var out := Dispatch(resp).rows;
            |out| == |body.nplData.rows| && forall i :: 0 <= i < |out| ==> out[i] == NplRow(body.nplData.rows[i]))
      && (body.ObjectBody? && body.data.Falsy? && body.nplData.Falsy? ==> Dispatch(resp) == Loaded([]))
      && (body.ArrayBody? ==> Dispatch(resp) == Loaded(body.items))
      && (body.ScalarBody? ==> Dispatch(resp) == Loaded([]))
  {
    if resp.Reply? && resp.ok && resp.parsed.Json? {
      var body := resp.parsed.body;
      if body.ObjectBody? && body.data.Falsy? && body.nplData.Rows? {
        forall i | 0 <= i < |body.nplData.rows| {
          MapSeqAt(body.nplData.rows, NplRow, i);
        }
      }
    }
  }
}

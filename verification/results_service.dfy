/**
 * The query and the reply normalisation of the results endpoint
 * (services/results.ts).
 */
module ResultsService {
  import opened Wrappers
  import opened JsText
  import opened Json

  datatype ResultsFilter = ResultsFilter(
    name: Option<string>,
    global: Option<string>,
    status: Option<string>,
    startDate: Option<string>,
    endDate: Option<string>)

  datatype FetchResultsParams = FetchResultsParams(
    page: Option<int>,
    perPage: Option<int>,
    all: Option<bool>,
    filter: Option<ResultsFilter>,
    sort: Option<string>)

  const NoFilter := ResultsFilter(None, None, None, None, None)

  /** `params.filter`, read through `?.`: a missing filter has no values. */
  function Filter(p: FetchResultsParams): ResultsFilter
  {
    p.filter.GetOr(NoFilter)
  }

  /**
   * The `queryParams` object: one optional member per query-string key
   * (`page`, `per_page`, `all`, `filter[user.name]`, `filter[global]`,
   * `filter[resultStatus.slug]`, `filter[start_date]`, `filter[end_date]`,
   * `sort`). A member left `undefined` is `None`, and the HTTP client leaves
   * it out of the query string.
   */
  datatype QueryParams = QueryParams(
    page: Option<int>,
    perPage: Option<int>,
    all: Option<string>,
    userName: Option<string>,
    global: Option<string>,
    statusSlug: Option<string>,
    startDate: Option<string>,
    endDate: Option<string>,
    sort: Option<string>)

  /** `if (value) ...`: a value is sent only when it is a non-empty string. */
  function IfTruthy(value: Option<string>): (r: Option<string>)
    ensures r.Some? <==> Truthy(value)
    ensures r.Some? ==> r == value
  {
    if Truthy(value) then value else None
  }

  /** `queryParams`, filled key by key. */
  method BuildQueryParams(p: FetchResultsParams) returns (q: QueryParams)
    ensures q.page == p.page && q.perPage == p.perPage
    ensures q.all.Some? <==> p.all == Some(true)
    ensures q.all.Some? ==> q.all.value == "true"
    ensures q.userName == IfTruthy(Filter(p).name)
    ensures q.global == IfTruthy(Filter(p).global)
    ensures q.statusSlug == IfTruthy(Filter(p).status)
    ensures q.startDate == IfTruthy(Filter(p).startDate)
    ensures q.endDate == IfTruthy(Filter(p).endDate)
    ensures q.sort == IfTruthy(p.sort)
  {
    q := QueryParams(p.page, p.perPage, if p.all == Some(true) then Some("true") else None,
                     None, None, None, None, None, None);
    var f := Filter(p);
    if Truthy(f.name) {
      q := q.(userName := f.name);
    }
    assert q.userName == IfTruthy(f.name);
    if Truthy(f.global) {
      q := q.(global := f.global);
    }
    assert q.global == IfTruthy(f.global);
    if Truthy(f.status) {
      q := q.(statusSlug := f.status);
    }
    assert q.statusSlug == IfTruthy(f.status);
    if Truthy(f.startDate) {
      q := q.(startDate := f.startDate);
    }
    assert q.startDate == IfTruthy(f.startDate);
    if Truthy(f.endDate) {
      q := q.(endDate := f.endDate);
    }
    assert q.endDate == IfTruthy(f.endDate);
    if Truthy(p.sort) {
      q := q.(sort := p.sort);
    }
  }

  datatype FetchResultsResult = FetchResultsResult(assignments: seq<Json>, meta: Option<Json>)

  /** The normalisation at the end of `fetchResults`. */
  function NormalizeResults(data: Json): (r: FetchResultsResult)
    ensures data.JArr? ==> r == FetchResultsResult(data.items, None)
    ensures HasKey(data, "data") && data.fields["data"].JArr? ==>
      r == FetchResultsResult(data.fields["data"].items, Get(data, "meta"))
    ensures !data.JArr? && !(HasKey(data, "data") && data.fields["data"].JArr?) ==> r == FetchResultsResult([], None)
  {
    if data.JArr? then FetchResultsResult(data.items, None)
    else if HasKey(data, "data") && data.fields["data"].JArr? then FetchResultsResult(data.fields["data"].items, Get(data, "meta"))
    else FetchResultsResult([], None)
  }

  /** A bare list and the same list in a paginated envelope give the same assignments. */
  lemma EnvelopeKeepsAssignments(items: seq<Json>, meta: Json)
    ensures NormalizeResults(JObj(map["data" := JArr(items), "meta" := meta])).assignments
         == NormalizeResults(JArr(items)).assignments
  {
    assert HasKey(JObj(map["data" := JArr(items), "meta" := meta]), "data");
  }
}

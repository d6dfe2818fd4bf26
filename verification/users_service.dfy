/**
 * The query and the reply normalisation of the users endpoint
 * (services/users.ts).
 */
module UsersService {
  import opened Wrappers
  import opened JsText
  import opened Json

  datatype UsersFilter = UsersFilter(name: Option<string>, email: Option<string>)

  datatype FetchUsersParams = FetchUsersParams(
    page: Option<int>,
    perPage: Option<int>,
    filter: Option<UsersFilter>,
    sort: Option<string>)

  /**
   * The `queryParams` object (`page`, `per_page`, `filter[name]`,
   * `filter[email]`, `sort`); `None` members are left out of the query string.
   */
  datatype QueryParams = QueryParams(
    page: Option<int>,
    perPage: Option<int>,
    name: Option<string>,
    email: Option<string>,
    sort: Option<string>)

  /** `params.filter?.name` */
  function FilterName(p: FetchUsersParams): Option<string>
  {
    if p.filter.Some? then p.filter.value.name else None
  }

  /** `params.filter?.email` */
  function FilterEmail(p: FetchUsersParams): Option<string>
  {
    if p.filter.Some? then p.filter.value.email else None
  }

  /** `queryParams`, filled key by key. */
  method BuildQueryParams(p: FetchUsersParams) returns (q: QueryParams)
    ensures q.page == p.page && q.perPage == p.perPage
    ensures q.name.Some? <==> Truthy(FilterName(p))
    ensures q.name.Some? ==> q.name == FilterName(p)
    ensures q.email.Some? <==> Truthy(FilterEmail(p))
    ensures q.email.Some? ==> q.email == FilterEmail(p)
    ensures q.sort.Some? <==> Truthy(p.sort)
    ensures q.sort.Some? ==> q.sort == p.sort
  {
    q := QueryParams(p.page, p.perPage, None, None, None);
    if Truthy(FilterName(p)) {
      q := q.(name := FilterName(p));
    }
    if Truthy(FilterEmail(p)) {
      q := q.(email := FilterEmail(p));
    }
    if Truthy(p.sort) {
      q := q.(sort := p.sort);
    }
  }

  /** What `fetchUsers` resolves to, or the `TypeError` of reading `.data` on `null`. */
  datatype UsersOutcome = Users(users: Json, meta: Option<Json>) | TypeError

  /** `unwrap(data)`, then the list or the paginated members. */
  function NormalizeUsers(data: Json): (r: UsersOutcome)
    ensures UnwrapResource(data).JArr? ==> r == Users(UnwrapResource(data), None)
    ensures r.TypeError? <==> UnwrapResource(data) == JNull
    ensures r.Users? && !UnwrapResource(data).JArr? ==> r.meta == Get(UnwrapResource(data), "meta")
    ensures r.Users? && !UnwrapResource(data).JArr? ==>
      r.users == Coalesce(Get(UnwrapResource(data), "data"), Some(JArr([]))).value
  {
    var result := UnwrapResource(data);
    if result.JArr? then Users(result, None)
    else if result == JNull then TypeError
    else Users(Coalesce(Get(result, "data"), Some(JArr([]))).value, Get(result, "meta"))
  }

  /** The paginated reply wrapped in a resource gives its page of users and its meta. */
  lemma WrappedPageGivesUsers(users: seq<Json>, meta: Json)
    ensures var page := JObj(map["data" := JArr(users), "meta" := meta]);
      NormalizeUsers(JObj(map["data" := page])) == Users(JArr(users), Some(meta))
  {
    var page := JObj(map["data" := JArr(users), "meta" := meta]);
    assert UnwrapResource(JObj(map["data" := page])) == page;
    assert Get(page, "data") == Some(JArr(users));
  }
}

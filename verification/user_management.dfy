/**
 * The users screen (components/admin/UserManagement.tsx): what it asks the
 * users endpoint for, how it names a user's role and what it sends when an
 * account is created. Its page, search and sort state is a `Listing.ListQuery`.
 */
module UserManagement {
  import opened Wrappers
  import opened JsText
  import opened Backend
  import opened Listing
  import UsersService

  const PerPage := 10
  const DefaultSortField := "created_at"
  const NoRole := "—"

  /** The request for the current page, search and sort. */
  function UsersRequest(page: int, search: string, sortField: string, dir: Direction): (r: UsersService.FetchUsersParams)
    ensures r.page == Some(page) && r.perPage == Some(PerPage)
    ensures r.filter.Some? <==> NameFilter(search).Some?
    ensures r.sort == Some(SortParam(sortField, dir))
  {
    UsersService.FetchUsersParams(
      Some(page), Some(PerPage),
      if NameFilter(search).Some? then Some(UsersService.UsersFilter(NameFilter(search), None)) else None,
      Some(SortParam(sortField, dir)))
  }

  /** The name filter reaches the query exactly when the trimmed search is not blank, and carries it. */
  lemma RequestFiltersByTrimmedName(page: int, search: string, sortField: string, dir: Direction)
    ensures var p := UsersRequest(page, search, sortField, dir);
      (Truthy(UsersService.FilterName(p)) <==> Trim(search) != "")
      && (Trim(search) != "" ==> UsersService.FilterName(p) == Some(Trim(search)))
      && UsersService.FilterEmail(p).None?
  {
  }

  /** `getPrimaryRole`: the first role's title, else its name, else a dash. */
  function PrimaryRole(u: User): (r: string)
    ensures u.roles.None? || u.roles == Some([]) ==> r == NoRole
    ensures u.roles.Some? && |u.roles.value| > 0 && Truthy(u.roles.value[0].title) ==> r == u.roles.value[0].title.value
    ensures u.roles.Some? && |u.roles.value| > 0 && !Truthy(u.roles.value[0].title) && u.roles.value[0].name != ""
            ==> r == u.roles.value[0].name
    ensures r != ""
  {
    if u.roles.None? || |u.roles.value| == 0 then NoRole
    else if Truthy(u.roles.value[0].title) then u.roles.value[0].title.value
    else if u.roles.value[0].name != "" then u.roles.value[0].name
    else NoRole
  }

  /** The create-user form. */
  datatype NewUser = NewUser(name: string, email: string, password: string, rank: string)

  /** `handleSubmitNewUser`'s payload: everything but the password is trimmed. */
  function CreatePayload(form: NewUser): (r: NewUser)
    ensures r.name == Trim(form.name) && r.email == Trim(form.email) && r.rank == Trim(form.rank)
    ensures r.password == form.password
  {
    NewUser(Trim(form.name), Trim(form.email), form.password, Trim(form.rank))
  }

  /** Building the payload from its own result sends the same payload. */
  lemma CreatePayloadIdempotent(form: NewUser)
    ensures CreatePayload(CreatePayload(form)) == CreatePayload(form)
  {
    TrimIdempotent(form.name);
    TrimIdempotent(form.email);
    TrimIdempotent(form.rank);
  }
}

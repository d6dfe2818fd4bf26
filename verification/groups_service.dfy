/**
 * Normalising the replies of the group endpoints (services/groups.ts): a
 * paginated reply may arrive bare, as a plain list, or wrapped in `data`.
 */
module GroupsService {
  import opened Json

  /** `isPaginatedResponse`: a truthy object whose `data` is a list. */
  predicate IsPaginated(v: Json)
  {
    v.JObj? && "data" in v.fields && v.fields["data"].JArr?
  }

  /** `{ data: items }` */
  function Page(items: seq<Json>): (r: Json)
    ensures IsPaginated(r) && r.fields["data"] == JArr(items)
  {
    JObj(map["data" := JArr(items)])
  }

  /** `unwrapPaginated` */
  function UnwrapPaginated(payload: Json): (r: Json)
    ensures IsPaginated(r)
    ensures payload.JArr? ==> r == Page(payload.items)
    ensures IsPaginated(payload) ==> r == payload
    ensures !payload.JArr? && !IsPaginated(payload) && HasKey(payload, "data") && IsPaginated(payload.fields["data"])
            ==> r == payload.fields["data"]
    ensures !payload.JArr? && !IsPaginated(payload) && !(HasKey(payload, "data") && IsPaginated(payload.fields["data"]))
            ==> r == Page([])
  {
    if payload.JArr? then Page(payload.items)
    else if IsPaginated(payload) then payload
    else if HasKey(payload, "data") && IsPaginated(UnwrapResource(payload)) then UnwrapResource(payload)
    else Page([])
  }

  /** Normalising twice changes nothing more. */
  lemma UnwrapPaginatedIdempotent(payload: Json)
    ensures UnwrapPaginated(UnwrapPaginated(payload)) == UnwrapPaginated(payload)
  {
  }

  /** The list the item fetchers return: `unwrapPaginated(data).data`. */
  function Items(payload: Json): (r: seq<Json>)
    ensures payload.JArr? ==> r == payload.items
    ensures IsPaginated(payload) ==> r == payload.fields["data"].items
    ensures !payload.JArr? && !payload.JObj? ==> r == []
  {
    UnwrapPaginated(payload).fields["data"].items
  }
}

/**
 * The paged, sortable, searchable lists of the admin screens
 * (components/admin/UserManagement.tsx and components/admin/ExamResultsAdmin.tsx
 * keep the same page, search and sort state and the same pager).
 */
module Listing {
  import opened Wrappers
  import opened JsText
  import opened Ui

  datatype Direction = Asc | Desc

  function Flip(d: Direction): (r: Direction)
    ensures r != d
  {
    if d == Asc then Desc else Asc
  }

  /** The sort request parameter: `-field` for descending, `field` for ascending. */
  function SortParam(field: string, dir: Direction): (r: string)
    ensures dir == Desc ==> r == "-" + field
    ensures dir == Asc ==> r == field
  {
    if dir == Desc then "-" + field else field
  }

  /** How the backend reads a sort parameter. */
  function ParseSortParam(s: string): (string, Direction)
  {
    if |s| > 0 && s[0] == '-' then (s[1..], Desc) else (s, Asc)
  }

  /** The encoding loses nothing for a field name that does not start with `-`. */
  lemma SortParamRoundTrip(field: string, dir: Direction)
    requires field == [] || field[0] != '-'
    ensures ParseSortParam(SortParam(field, dir)) == (field, dir)
  {
    if dir == Desc {
      assert ("-" + field)[1..] == field;
    }
  }

  /** The name filter: the trimmed search, sent only when it is not blank. */
  function NameFilter(search: string): (r: Option<string>)
    ensures r.Some? <==> Trim(search) != ""
    ensures r.Some? ==> r.value == Trim(search)
  {
    if Trim(search) != "" then Some(Trim(search)) else None
  }

  /** Trimming the filter again changes nothing: what is sent is already trimmed. */
  lemma NameFilterIsTrimmed(search: string)
    requires NameFilter(search).Some?
    ensures Trim(NameFilter(search).value) == NameFilter(search).value
  {
    TrimIdempotent(search);
  }

  /** `meta ? Math.max(meta.last_page, 1) : 1` */
  function TotalPages(lastPage: Option<int>): (r: int)
    ensures r >= 1
    ensures lastPage.Some? && lastPage.value >= 1 ==> r == lastPage.value
    ensures lastPage.None? || lastPage.value < 1 ==> r == 1
  {
    if lastPage.Some? && lastPage.value > 1 then lastPage.value else 1
  }

  /** 'Попередня' is disabled on page 1. */
  predicate PrevDisabled(page: int)
  {
    page == 1
  }

  /** 'Наступна' is disabled without meta or on the last page. */
  predicate NextDisabled(page: int, lastPage: Option<int>)
  {
    lastPage.None? || page >= lastPage.value
  }

  /** The column's icon: neutral unless it is the sorted column, then by direction. */
  function SortIconOf(field: string, sortField: string, dir: Direction): (r: SortIcon)
    ensures r == Unsorted <==> field != sortField
    ensures field == sortField ==> (r == Ascending <==> dir == Asc)
  {
    if field != sortField then Unsorted else if dir == Asc then Ascending else Descending
  }

  /** The sort state after clicking the header of `clicked`. */
  function SortAfter(sortField: string, dir: Direction, clicked: string): (r: (string, Direction))
    ensures r.0 == clicked
    ensures clicked == sortField ==> r.1 == Flip(dir)
    ensures clicked != sortField ==> r.1 == Asc
  {
    if clicked == sortField then (sortField, Flip(dir)) else (clicked, Asc)
  }

  /** Clicking the same header twice restores the order; a new column starts ascending, then descends. */
  lemma SortTwice(sortField: string, dir: Direction, clicked: string)
    ensures var once := SortAfter(sortField, dir, clicked);
      clicked == sortField ==> SortAfter(once.0, once.1, clicked) == (sortField, dir)
    ensures var once := SortAfter(sortField, dir, clicked);
      clicked != sortField ==> SortAfter(once.0, once.1, clicked) == (clicked, Desc)
  {
  }

  /** The list's page, applied search and sort. */
  class ListQuery {
    var page: int
    var search: string
    var sortField: string
    var direction: Direction

    predicate Valid()
      reads this
    {
      page >= 1
    }

    /** A fresh list: page 1, no search, newest first on `defaultField`. */
    constructor(defaultField: string)
      ensures Valid()
      ensures page == 1 && search == "" && sortField == defaultField && direction == Desc
    {
      page := 1;
      search := "";
      sortField := defaultField;
      direction := Desc;
    }

    /** The sort parameter the list is requested with. */
    function Sort(): string
      reads this
    {
      SortParam(sortField, direction)
    }

    /** `handleSort`: toggle or select the field; the page goes back to 1. */
    method HandleSort(field: string)
      requires Valid()
      modifies this
      ensures Valid()
      ensures (sortField, direction) == SortAfter(old(sortField), old(direction), field)
      ensures page == 1 && search == old(search)
    {
      sortField, direction := SortAfter(sortField, direction, field).0, SortAfter(sortField, direction, field).1;
      page := 1;
    }

    /** The debounced search of the users list: applied, and the page goes back to 1. */
    method ApplySearchResettingPage(q: string)
      requires Valid()
      modifies this
      ensures Valid()
      ensures search == q && page == 1
      ensures sortField == old(sortField) && direction == old(direction)
    {
      search := q;
      page := 1;
    }

    /** The debounced search of the results list: applied, the page is kept. */
    method ApplySearchKeepingPage(q: string)
      requires Valid()
      modifies this
      ensures Valid()
      ensures search == q && page == old(page)
      ensures sortField == old(sortField) && direction == old(direction)
    {
      search := q;
    }

    /** 'Попередня': ignored when disabled, else `Math.max(prev - 1, 1)`. */
    method Previous()
      requires Valid()
      modifies this
      ensures Valid()
      ensures PrevDisabled(old(page)) ==> page == old(page)
      ensures !PrevDisabled(old(page)) ==> page == old(page) - 1
      ensures search == old(search) && sortField == old(sortField) && direction == old(direction)
    {
      if !PrevDisabled(page) {
        page := if page - 1 > 1 then page - 1 else 1;
      }
    }

    /** 'Наступна': ignored when disabled, else `Math.min(prev + 1, meta.last_page)`. */
    method Next(lastPage: Option<int>)
      requires Valid()
      modifies this
      ensures Valid()
      ensures NextDisabled(old(page), lastPage) ==> page == old(page)
      ensures !NextDisabled(old(page), lastPage) ==> page == old(page) + 1 && page <= TotalPages(lastPage)
      ensures search == old(search) && sortField == old(sortField) && direction == old(direction)
    {
      if !NextDisabled(page, lastPage) {
        page := if page + 1 < lastPage.value then page + 1 else lastPage.value;
      }
    }
  }

  /** A page in range stays in range whichever button is pressed. */
  lemma PagerStaysInRange(page: int, lastPage: Option<int>)
    requires 1 <= page <= TotalPages(lastPage)
    ensures !PrevDisabled(page) ==> 1 <= (if page - 1 > 1 then page - 1 else 1) <= TotalPages(lastPage)
    ensures !NextDisabled(page, lastPage) ==>
      1 <= (if page + 1 < lastPage.value then page + 1 else lastPage.value) <= TotalPages(lastPage)
  {
  }
}

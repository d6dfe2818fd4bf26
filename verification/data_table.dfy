/**
 * The generic table (components/common/DataTable.tsx): its pager buttons,
 * the field a header sorts by, the header icon and the body rows. The
 * component keeps no state; every value here is computed from its props.
 */
module DataTable {
  import opened Wrappers
  import opened JsText
  import opened Ui
  import Listing

  /** 'Previous': the page it emits, `None` when the button is disabled (on page 1). */
  function PreviousPage(page: int): (r: Option<int>)
    ensures r.None? <==> page == 1
    ensures r.Some? ==> r.value == (if page - 1 > 1 then page - 1 else 1)
  {
    if page == 1 then None else Some(if page - 1 > 1 then page - 1 else 1)
  }

  /** 'Next': the page it emits, `None` when the button is disabled (from the last page on). */
  function NextPage(page: int, totalPages: int): (r: Option<int>)
    ensures r.None? <==> page >= totalPages
    ensures r.Some? ==> r.value == page + 1
  {
    if page >= totalPages then None else Some(if page + 1 < totalPages then page + 1 else totalPages)
  }

  /** From a page in range, both buttons emit only pages in range. */
  lemma EmittedPagesInRange(page: int, totalPages: int)
    requires 1 <= page <= totalPages
    ensures PreviousPage(page).Some? ==> 1 <= PreviousPage(page).value < page
    ensures NextPage(page, totalPages).Some? ==> page < NextPage(page, totalPages).value <= totalPages
  {
  }

  /** A column definition; only the fields that decide sorting. */
  datatype Column = Column(header: string, accessorKey: Option<string>, sortable: bool, sortKey: Option<string>)

  /** `col.sortKey || col.accessorKey`: `None` is the `undefined` the header then sorts by. */
  function SortKeyOf(col: Column): (r: Option<string>)
    ensures Truthy(col.sortKey) ==> r == col.sortKey
    ensures !Truthy(col.sortKey) ==> r == col.accessorKey
  {
    if Truthy(col.sortKey) then col.sortKey else col.accessorKey
  }

  /** A header is a sort button only for a sortable column of a table given `onSort`. */
  function HeaderSort(col: Column, hasOnSort: bool): (r: Option<Option<string>>)
    ensures r.Some? <==> col.sortable && hasOnSort
    ensures r.Some? ==> r.value == SortKeyOf(col)
  {
    if col.sortable && hasOnSort then Some(SortKeyOf(col)) else None
  }

  /** `getSortIcon`: neutral for any other field, else by direction (anything but 'asc' points down). */
  function SortIconOf(field: Option<string>, sortField: Option<string>, dir: Option<Listing.Direction>): (r: SortIcon)
    ensures r == Unsorted <==> field != sortField
    ensures field == sortField ==> (r == Ascending <==> dir == Some(Listing.Asc))
  {
    if field != sortField then Unsorted
    else if dir == Some(Listing.Asc) then Ascending
    else Descending
  }

  datatype BodyRow<T> = ItemRow(item: T) | Placeholder

  /** The table body: one row per item, in order, or the single 'No results found.' row. */
  function BodyRows<T>(data: seq<T>): (r: seq<BodyRow<T>>)
    ensures |data| == 0 ==> r == [Placeholder]
    ensures |data| > 0 ==> |r| == |data| && forall i :: 0 <= i < |data| ==> r[i] == ItemRow(data[i])
  {
    if |data| == 0 then [Placeholder] else seq(|data|, i requires 0 <= i < |data| => ItemRow(data[i]))
  }

  /** The body is never empty and holds a placeholder only when there is no data. */
  lemma BodyRowsNonEmpty<T>(data: seq<T>)
    ensures |BodyRows(data)| >= 1
    ensures Placeholder in BodyRows(data) <==> |data| == 0
  {
    if |data| > 0 {
      assert forall x :: x in BodyRows(data) ==> x.ItemRow?;
    }
  }
}

/**
 * The admin results table (components/admin/ExamResultsAdmin.tsx): rows
 * normalised from assignments, the status filter and its options, the
 * counters above the table and the status badges.
 */
module ExamResultsAdmin {
  import opened Wrappers
  import opened JsText
  import opened Collections
  import opened Backend
  import opened Ui
  import opened Listing
  import ResultsService

  const PerPage := 10
  const DefaultSortField := "end_at"
  const Dash := "—"
  const UnknownSlug := "unknown"
  const AllStatuses := "all"

  /** The request for the current page, search and sort; all results are asked for. */
  function ResultsRequest(page: int, search: string, sortField: string, dir: Direction): (r: ResultsService.FetchResultsParams)
    ensures r.page == Some(page) && r.perPage == Some(PerPage) && r.all == Some(true)
    ensures r.sort == Some(SortParam(sortField, dir))
    ensures ResultsService.Filter(r).name == NameFilter(search)
  {
    ResultsService.FetchResultsParams(
      Some(page), Some(PerPage), Some(true),
      if NameFilter(search).Some? then Some(ResultsService.NoFilter.(name := NameFilter(search))) else None,
      Some(SortParam(sortField, dir)))
  }

  /** A normalised table row. */
  datatype Row = Row(
    id: string,
    userName: string,
    userEmail: string,
    courseName: string,
    examName: string,
    statusSlug: string,
    statusName: string,
    completedAt: Option<Timestamp>)

  /** One entry of `normalized`. */
  function Normalize(a: Assignment): (r: Row)
    ensures r.id == IntToString(a.id) && r.completedAt == a.endAt
    ensures r.userName == (if a.user.Some? then a.user.value.name else Dash)
    ensures r.userEmail == (if a.user.Some? then a.user.value.email else Dash)
    ensures r.examName == (if a.exam.Some? then a.exam.value.title else Dash)
    ensures a.group.Some? && a.group.value.name.Some? ==> r.courseName == a.group.value.name.value
    ensures a.group.Some? && a.group.value.name.None? && a.group.value.course.Some?
            ==> r.courseName == a.group.value.course.value.title
    ensures a.group.None? || (a.group.value.name.None? && a.group.value.course.None?) ==> r.courseName == Dash
    ensures r.statusSlug == (if a.result.Some? then a.result.value.slug else UnknownSlug)
    ensures r.statusName == (if a.result.Some? then a.result.value.name else Dash)
  {
    Row(
      IntToString(a.id),
      if a.user.Some? then a.user.value.name else Dash,
      if a.user.Some? then a.user.value.email else Dash,
      if a.group.Some? && a.group.value.name.Some? then a.group.value.name.value
      else if a.group.Some? && a.group.value.course.Some? then a.group.value.course.value.title
      else Dash,
      if a.exam.Some? then a.exam.value.title else Dash,
      if a.result.Some? then a.result.value.slug else UnknownSlug,
      if a.result.Some? then a.result.value.name else Dash,
      a.endAt)
  }

  /** `normalized` */
  function Normalized(s: seq<Assignment>): (r: seq<Row>)
    ensures |r| == |s|
    ensures forall i :: 0 <= i < |s| ==> r[i] == Normalize(s[i])
  {
    seq(|s|, i requires 0 <= i < |s| => Normalize(s[i]))
  }

  /** A status filter option. */
  datatype StatusOption = StatusOption(slug: string, name: string)

  /** `r.statusName || r.statusSlug` */
  function Label(r: Row): string
  {
    if r.statusName != "" then r.statusName else r.statusSlug
  }

  function SlugsOf(m: seq<StatusOption>): (r: seq<string>)
    ensures |r| == |m|
    ensures forall i :: 0 <= i < |m| ==> r[i] == m[i].slug
  {
    seq(|m|, i requires 0 <= i < |m| => m[i].slug)
  }

  /** `Map.prototype.set` on an insertion-ordered map: a known key keeps its place, a new one goes last. */
  function MapSet(m: seq<StatusOption>, slug: string, name: string): (r: seq<StatusOption>)
    ensures slug in SlugsOf(m) ==> |r| == |m|
    ensures slug in SlugsOf(m) ==> SlugsOf(r) == SlugsOf(m)
    ensures slug !in SlugsOf(m) ==> r == m + [StatusOption(slug, name)]
    ensures NoDups(SlugsOf(m)) ==> forall i :: 0 <= i < |r| && r[i].slug == slug ==> r[i].name == name
    ensures forall i :: 0 <= i < |m| && m[i].slug != slug ==> r[i] == m[i]
  {
    var k := FirstIndex(SlugsOf(m), slug);
    if k < |m| then
      assert SlugsOf(m[k := StatusOption(slug, name)]) == SlugsOf(m);
      m[k := StatusOption(slug, name)]
    else m + [StatusOption(slug, name)]
  }

  /** One turn of the `forEach`: `if (r.statusSlug) uniq.set(r.statusSlug, r.statusName || r.statusSlug)`. */
  function Step(m: seq<StatusOption>, r: Row): seq<StatusOption>
  {
    if r.statusSlug != "" then MapSet(m, r.statusSlug, Label(r)) else m
  }

  /** A turn adds the row's slug, if it has one, and no other. */
  lemma StepSlugs(m: seq<StatusOption>, r: Row, slug: string)
    ensures slug in SlugsOf(Step(m, r)) <==> slug in SlugsOf(m) || (r.statusSlug != "" && slug == r.statusSlug)
  {
    if r.statusSlug != "" && r.statusSlug !in SlugsOf(m) {
      assert SlugsOf(Step(m, r)) == SlugsOf(m) + [r.statusSlug];
    }
  }

  /** A turn keeps every slug in its place, and appends only a slug not seen before. */
  lemma StepKeepsOrder(m: seq<StatusOption>, r: Row)
    ensures |Step(m, r)| == |m| || |Step(m, r)| == |m| + 1
    ensures forall k :: 0 <= k < |m| ==> Step(m, r)[k].slug == m[k].slug
    ensures |Step(m, r)| == |m| + 1 ==>
      r.statusSlug != "" && r.statusSlug !in SlugsOf(m) && Step(m, r)[|m|].slug == r.statusSlug
  {
    if r.statusSlug != "" && r.statusSlug in SlugsOf(m) {
      assert SlugsOf(Step(m, r)) == SlugsOf(m);
    }
  }

  /** The statuses of the rows, as `availableStatuses` builds them. */
  function StatusesOf(rows: seq<Row>): seq<StatusOption>
  {
    if |rows| == 0 then [] else Step(StatusesOf(rows[..|rows| - 1]), rows[|rows| - 1])
  }

  /** `availableStatuses`: the `forEach` filling a `Map`, then its entries. */
  method AvailableStatuses(rows: seq<Row>) returns (m: seq<StatusOption>)
    ensures m == StatusesOf(rows)
  {
    m := [];
    for i := 0 to |rows|
      invariant m == StatusesOf(rows[..i])
    {
      assert rows[..i + 1][..i] == rows[..i];
      if rows[i].statusSlug != "" {
        m := Step(m, rows[i]);
      }
    }
    assert rows[..|rows|] == rows;
  }

  /** The slugs of the rows, in row order. */
  function RowSlugs(rows: seq<Row>): (r: seq<string>)
    ensures |r| == |rows|
    ensures forall i :: 0 <= i < |rows| ==> r[i] == rows[i].statusSlug
  {
    seq(|rows|, i requires 0 <= i < |rows| => rows[i].statusSlug)
  }

  lemma RowSlugsSnoc(rows: seq<Row>)
    requires |rows| > 0
    ensures RowSlugs(rows) == RowSlugs(rows[..|rows| - 1]) + [rows[|rows| - 1].statusSlug]
  {
  }

  /** The label of the last row with this slug; `""` when there is none. */
  function LastLabel(rows: seq<Row>, slug: string): string
  {
    if |rows| == 0 then ""
    else if rows[|rows| - 1].statusSlug == slug then Label(rows[|rows| - 1])
    else LastLabel(rows[..|rows| - 1], slug)
  }

  /** Where `x` first occurs in `s`; `|s|` when it does not. */
  function FirstIndex(s: seq<string>, x: string): (r: nat)
    ensures r <= |s|
    ensures r < |s| ==> s[r] == x
    ensures forall k :: 0 <= k < r ==> s[k] != x
    ensures x in s ==> r < |s|
  {
    if |s| == 0 then 0
    else if s[0] == x then 0
    else
      var r := FirstIndex(s[1..], x);
      assert forall k :: 0 < k < |s| ==> s[k] == s[1..][k - 1];
      r + 1
  }

  lemma InSnoc(s: seq<string>, y: string, x: string)
    ensures x in s + [y] <==> x in s || x == y
  {
    if x in s + [y] && x != y {
      var k :| 0 <= k < |s| + 1 && (s + [y])[k] == x;
      assert k < |s| && s[k] == x;
    }
  }

  /** Appending to a list does not move the first occurrence of anything already in it. */
  lemma FirstIndexSnoc(s: seq<string>, y: string, x: string)
    ensures x in s ==> FirstIndex(s + [y], x) == FirstIndex(s, x)
    ensures x !in s && x == y ==> FirstIndex(s + [y], x) == |s|
  {
    var r := FirstIndex(s + [y], x);
    if x in s {
      var k := FirstIndex(s, x);
      assert (s + [y])[k] == x;
      assert forall j :: 0 <= j < r && j < |s| ==> (s + [y])[j] == s[j];
    } else if x == y {
      assert (s + [y])[|s|] == x;
      assert forall j :: 0 <= j < |s| ==> (s + [y])[j] == s[j];
    }
  }

  /** One option per slug: no slug is listed twice. */
  lemma {:induction false} StatusesDistinct(rows: seq<Row>)
    ensures NoDups(SlugsOf(StatusesOf(rows)))
    decreases |rows|
  {
    if |rows| > 0 {
      var init := rows[..|rows| - 1];
      StatusesDistinct(init);
      var prev := StatusesOf(init);
      var r := rows[|rows| - 1];
      if r.statusSlug != "" && r.statusSlug !in SlugsOf(prev) {
        assert SlugsOf(prev + [StatusOption(r.statusSlug, Label(r))]) == SlugsOf(prev) + [r.statusSlug];
      }
    }
  }

  /** A slug is offered exactly when it is non-empty and some row carries it. */
  lemma {:induction false} StatusesCoverRows(rows: seq<Row>, slug: string)
    ensures slug in SlugsOf(StatusesOf(rows)) <==> slug != "" && slug in RowSlugs(rows)
    decreases |rows|
  {
    if |rows| > 0 {
      var init := rows[..|rows| - 1];
      var r := rows[|rows| - 1];
      StatusesCoverRows(init, slug);
      StepSlugs(StatusesOf(init), r, slug);
      RowSlugsSnoc(rows);
      InSnoc(RowSlugs(init), r.statusSlug, slug);
    }
  }

  /** Each option is named after the last row with its slug. */
  lemma {:induction false} StatusNameFromLastRow(rows: seq<Row>)
    ensures forall i :: 0 <= i < |StatusesOf(rows)| ==>
      StatusesOf(rows)[i].name == LastLabel(rows, StatusesOf(rows)[i].slug)
    decreases |rows|
  {
    if |rows| > 0 {
      var init := rows[..|rows| - 1];
      StatusNameFromLastRow(init);
      StatusesDistinct(init);
      var prev := StatusesOf(init);
      var m := StatusesOf(rows);
      var r := rows[|rows| - 1];
      forall i | 0 <= i < |m|
        ensures m[i].name == LastLabel(rows, m[i].slug)
      {
        if r.statusSlug != "" && m[i].slug == r.statusSlug {
          assert m[i].name == Label(r);
        } else {
          if r.statusSlug == "" {
            assert m == prev;
            assert m[i].slug in SlugsOf(prev);
            StatusesCoverRows(init, m[i].slug);
          }
          assert LastLabel(rows, m[i].slug) == LastLabel(init, m[i].slug);
          if r.statusSlug == "" {
          } else if r.statusSlug !in SlugsOf(prev) {
            assert i < |prev| && m[i] == prev[i];
          } else {
            assert SlugsOf(m) == SlugsOf(prev);
            assert m[i].slug == prev[i].slug;
            assert m[i] == prev[i];
          }
        }
      }
    }
  }

  /** A row appended after an option's slug first appeared leaves that first appearance in place. */
  lemma OptionKeepsFirstIndex(init: seq<Row>, r: Row, i: nat)
    requires i < |StatusesOf(init)|
    ensures FirstIndex(RowSlugs(init) + [r.statusSlug], StatusesOf(init)[i].slug)
      == FirstIndex(RowSlugs(init), StatusesOf(init)[i].slug) < |RowSlugs(init)|
  {
    var prev := StatusesOf(init);
    assert SlugsOf(prev)[i] == prev[i].slug;
    StatusesCoverRows(init, prev[i].slug);
    FirstIndexSnoc(RowSlugs(init), r.statusSlug, prev[i].slug);
  }

  /** Options come in the order in which their slugs first appear among the rows. */
  lemma {:induction false} StatusesInFirstAppearanceOrder(rows: seq<Row>)
    ensures var m := StatusesOf(rows);
      forall i, j :: 0 <= i < j < |m| ==> FirstIndex(RowSlugs(rows), m[i].slug) < FirstIndex(RowSlugs(rows), m[j].slug)
    decreases |rows|
  {
    if |rows| > 0 {
      var init := rows[..|rows| - 1];
      var r := rows[|rows| - 1];
      var prev := StatusesOf(init);
      var m := StatusesOf(rows);
      var s := RowSlugs(init);
      StatusesInFirstAppearanceOrder(init);
      StepKeepsOrder(prev, r);
      RowSlugsSnoc(rows);
      forall i | 0 <= i < |prev|
        ensures FirstIndex(RowSlugs(rows), m[i].slug) == FirstIndex(s, prev[i].slug) < |s|
      {
        OptionKeepsFirstIndex(init, r, i);
      }
      if |m| == |prev| + 1 {
        StatusesCoverRows(init, r.statusSlug);
        FirstIndexSnoc(s, r.statusSlug, r.statusSlug);
      }
    }
  }

  /** `filteredResults` */
  function Filtered(rows: seq<Row>, filter: string): (r: seq<Row>)
    ensures filter == AllStatuses ==> r == rows
    ensures filter != AllStatuses ==> forall x :: x in r <==> x in rows && x.statusSlug == filter
    ensures |r| <= |rows|
  {
    if filter == AllStatuses || |rows| == 0 then rows
    else
      var rest := Filtered(rows[1..], filter);
      assert forall x :: x in rows <==> x == rows[0] || x in rows[1..];
      if rows[0].statusSlug == filter then [rows[0]] + rest else rest
  }

  /** A single row is kept exactly when the filter is 'all' or names its slug. */
  lemma FilteredOfOne(x: Row, filter: string)
    ensures Filtered([x], filter) == if filter == AllStatuses || x.statusSlug == filter then [x] else []
  {
    assert [x][1..] == [];
  }

  /**
   * The filter of a concatenation is the concatenation of the filters; with
   * `FilteredOfOne`, the kept rows are exactly those with the slug, each as
   * often as it occurs, in their original order.
   */
  lemma {:induction false} FilteredAppend(a: seq<Row>, b: seq<Row>, filter: string)
    ensures Filtered(a + b, filter) == Filtered(a, filter) + Filtered(b, filter)
    decreases |a|
  {
    if filter == AllStatuses {
    } else if |a| == 0 {
      assert a + b == b;
    } else {
      var c := a + b;
      var head := if a[0].statusSlug == filter then [a[0]] else [];
      assert c[0] == a[0] && c[1..] == a[1..] + b;
      assert Filtered(c, filter) == head + Filtered(c[1..], filter);
      assert Filtered(a, filter) == head + Filtered(a[1..], filter);
      FilteredAppend(a[1..], b, filter);
      AppendAssoc(head, Filtered(a[1..], filter), Filtered(b, filter));
    }
  }

  predicate IsPassedRow(r: Row) { r.statusSlug == "passed" }
  predicate IsFailedRow(r: Row) { r.statusSlug == "failed" }

  datatype Stats = Stats(total: int, passed: nat, failed: nat)

  /** `stats`: `total` from the page meta when there is one. */
  function StatsOf(metaTotal: Option<int>, rows: seq<Row>): (r: Stats)
    ensures metaTotal.Some? ==> r.total == metaTotal.value
    ensures metaTotal.None? ==> r.total == |rows|
    ensures r.passed == Count(rows, IsPassedRow) && r.failed == Count(rows, IsFailedRow)
  {
    Stats(metaTotal.GetOr(|rows|), Count(rows, IsPassedRow), Count(rows, IsFailedRow))
  }

  /** No row is counted both passed and failed, so the two never exceed the rows shown. */
  lemma PassedAndFailedWithinRows(metaTotal: Option<int>, rows: seq<Row>)
    ensures StatsOf(metaTotal, rows).passed + StatsOf(metaTotal, rows).failed <= |rows|
  {
    CountDisjoint(rows, IsPassedRow, IsFailedRow);
  }

  /** `getStatusBadge`'s variant. */
  function BadgeVariantOf(slug: string): (v: BadgeVariant)
    ensures v == Default <==> slug in {"passed", "success", "completed"}
    ensures v == Destructive <==> slug in {"failed", "rejected"}
    ensures v == Secondary <==> slug in {"in_progress", "pending", "started"}
  {
    if slug == "passed" || slug == "success" || slug == "completed" then Default
    else if slug == "failed" || slug == "rejected" then Destructive
    else if slug == "in_progress" || slug == "pending" || slug == "started" then Secondary
    else Outline
  }

  /** `getStatusBadge`'s label: the name, or the slug when the name is empty or missing. */
  function BadgeLabel(slug: string, name: Option<string>): (l: string)
    ensures Truthy(name) ==> l == name.value
    ensures !Truthy(name) ==> l == slug
  {
    if Truthy(name) then name.value else slug
  }
}

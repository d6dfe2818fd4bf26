/**
 * The learner's result history (components/user/MyExamResults.tsx): attempt
 * percentages, the per-group average, grouping the page of assignments by
 * group, the pass statistics and the pager.
 */
module MyExamResults {
  import opened Wrappers
  import opened JsText
  import opened Json
  import opened Backend
  import opened Collections

  /** `calculatePercentage`: 0 for an empty attempt, else the rounded percentage. */
  function CalculatePercentage(score: int, total: nat): (p: int)
    ensures total == 0 ==> p == 0
    ensures 0 <= score <= total ==> 0 <= p <= 100
    ensures total > 0 ==> 2 * total * p <= 200 * score + total < 2 * total * (p + 1)
  {
    if total == 0 then 0 else RoundPercent(score, total)
  }

  /** The percentage of an attempt: `score ?? 0` over `answers?.length ?? 0`. */
  function AttemptPercentage(attempt: Option<ExamAttempt>): int
  {
    var score := if attempt.Some? && attempt.value.score.Some? then attempt.value.score.value else 0;
    var total := if attempt.Some? && attempt.value.answers.Some? then |attempt.value.answers.value| else 0;
    CalculatePercentage(score, total)
  }

  /** The attempt of the last instance, when there is one. */
  function LastAttempt(a: Assignment): Option<ExamAttempt>
  {
    if a.instances.Some? && |a.instances.value| > 0 then a.instances.value[|a.instances.value| - 1].attempt
    else None
  }

  /** What one assignment adds to the group's sum: its last attempt's percentage, or nothing. */
  function Contribution(a: Assignment): int
  {
    var last := LastAttempt(a);
    if last.Some? then AttemptPercentage(last) else 0
  }

  function SumContributions(s: seq<Assignment>): int
  {
    if |s| == 0 then 0 else SumContributions(s[..|s| - 1]) + Contribution(s[|s| - 1])
  }

  /** The group's average percentage, 0 for an empty group. */
  function GroupAverage(s: seq<Assignment>): (avg: int)
    ensures |s| == 0 ==> avg == 0
    ensures |s| > 0 ==> 2 * |s| * avg <= 2 * SumContributions(s) + |s| < 2 * |s| * (avg + 1)
  {
    if |s| == 0 then 0 else RoundDiv(SumContributions(s), |s|)
  }

  /** Every contribution lies in [0, 100] whenever no attempt scores above its answer count. */
  predicate ScoresWithinAnswers(s: seq<Assignment>)
  {
    forall i :: 0 <= i < |s| ==> 0 <= Contribution(s[i]) <= 100
  }

  lemma {:induction false} SumContributionsBounds(s: seq<Assignment>)
    requires ScoresWithinAnswers(s)
    ensures 0 <= SumContributions(s) <= 100 * |s|
    decreases |s|
  {
    if |s| > 0 {
      var init := s[..|s| - 1];
      assert forall i :: 0 <= i < |init| ==> init[i] == s[i];
      SumContributionsBounds(init);
    }
  }

  /** The average of percentages is itself a percentage. */
  lemma GroupAverageIsPercentage(s: seq<Assignment>)
    requires ScoresWithinAnswers(s)
    ensures 0 <= GroupAverage(s) <= 100
  {
    if |s| > 0 {
      SumContributionsBounds(s);
      var n, avg := |s|, GroupAverage(s);
      if avg > 100 {
        MulLe(2 * n, 101, avg);
      } else if avg < 0 {
        MulLe(2 * n, avg + 1, 0);
      }
    }
  }

  /** `group?.id?.toString() ?? '0'` */
  function BucketKey(a: Assignment): string
  {
    if a.group.Some? then IntToString(a.group.value.id) else "0"
  }

  /** The bucket's assignments: those with the key, in input order. */
  function Bucket(s: seq<Assignment>, k: string): (r: seq<Assignment>)
    ensures |r| <= |s|
    ensures forall a :: a in r ==> a in s && BucketKey(a) == k
  {
    if |s| == 0 then []
    else Bucket(s[..|s| - 1], k) + (if BucketKey(s[|s| - 1]) == k then [s[|s| - 1]] else [])
  }

  /** A single assignment lands in the bucket of its own key and no other. */
  lemma BucketOfOne(x: Assignment, k: string)
    ensures Bucket([x], k) == if BucketKey(x) == k then [x] else []
  {
    assert [x][..0] == [];
  }

  /**
   * The bucket of a concatenation is the concatenation of the buckets; with
   * `BucketOfOne`, a bucket holds the assignments with its key, each as often
   * as it occurs, in input order.
   */
  lemma {:induction false} BucketAppend(a: seq<Assignment>, b: seq<Assignment>, k: string)
    ensures Bucket(a + b, k) == Bucket(a, k) + Bucket(b, k)
    decreases |b|
  {
    if |b| == 0 {
      assert a + b == a;
    } else {
      var init, last := b[..|b| - 1], b[|b| - 1];
      var tail := if BucketKey(last) == k then [last] else [];
      assert (a + b)[..|a + b| - 1] == a + init;
      assert (a + b)[|a + b| - 1] == last;
      assert Bucket(a + b, k) == Bucket(a + init, k) + tail;
      assert Bucket(b, k) == Bucket(init, k) + tail;
      BucketAppend(a, init, k);
      AppendAssoc(Bucket(a, k), Bucket(init, k), tail);
    }
  }

  /** The keys in order of first appearance. */
  function Keys(s: seq<Assignment>): (r: seq<string>)
    ensures NoDups(r)
    ensures forall k :: k in r <==> exists i :: 0 <= i < |s| && BucketKey(s[i]) == k
  {
    if |s| == 0 then []
    else
      var init := s[..|s| - 1];
      var k := BucketKey(s[|s| - 1]);
      assert forall i :: 0 <= i < |init| ==> init[i] == s[i];
      Keys(init) + (if k in Keys(init) then [] else [k])
  }

  /** The group stored with a bucket: that of the first assignment with the key (`assignment.group!`). */
  function FirstGroup(s: seq<Assignment>, k: string): Option<Group>
  {
    if |s| == 0 then None
    else if k in Keys(s[..|s| - 1]) then FirstGroup(s[..|s| - 1], k)
    else s[|s| - 1].group
  }

  datatype GroupBucket = GroupBucket(group: Option<Group>, assignments: seq<Assignment>)

  /** The accumulator the grouping `reduce` produces. */
  function Grouped(s: seq<Assignment>): map<string, GroupBucket>
  {
    map k | k in Keys(s) :: GroupBucket(FirstGroup(s, k), Bucket(s, k))
  }

  /** `acc` holds, for each key of `s`, the bucket `Grouped(s)` has for it. */
  ghost predicate IsGrouping(acc: map<string, GroupBucket>, s: seq<Assignment>)
  {
    (forall j :: j in acc <==> j in Keys(s))
    && forall j :: j in acc ==> acc[j] == GroupBucket(FirstGroup(s, j), Bucket(s, j))
  }

  /** One step of the `reduce`: create the bucket on first sight of the key, then push. */
  function Push(acc: map<string, GroupBucket>, a: Assignment): map<string, GroupBucket>
  {
    var k := BucketKey(a);
    var acc1 := if k in acc then acc else acc[k := GroupBucket(a.group, [])];
    acc1[k := acc1[k].(assignments := acc1[k].assignments + [a])]
  }

  lemma PushKeepsGrouping(acc: map<string, GroupBucket>, s: seq<Assignment>, a: Assignment)
    requires IsGrouping(acc, s)
    ensures IsGrouping(Push(acc, a), s + [a])
  {
    var t := s + [a];
    assert t[..|t| - 1] == s && t[|t| - 1] == a;
    var k := BucketKey(a);
    var p := Push(acc, a);
    assert Keys(t) == Keys(s) + (if k in Keys(s) then [] else [k]);
    if k !in Keys(s) {
      BucketOfMissingKey(s, k);
    }
    forall j | j in p
      ensures p[j] == GroupBucket(FirstGroup(t, j), Bucket(t, j))
    {
      assert Bucket(t, j) == Bucket(s, j) + (if j == k then [a] else []);
      if j != k {
        assert j in Keys(s);
        assert FirstGroup(t, j) == FirstGroup(s, j);
      }
    }
  }

  lemma GroupingIsGrouped(acc: map<string, GroupBucket>, s: seq<Assignment>)
    requires IsGrouping(acc, s)
    ensures acc == Grouped(s)
  {
    assert forall j :: j in acc <==> j in Grouped(s);
  }

  lemma PushStep(acc: map<string, GroupBucket>, s: seq<Assignment>, i: nat)
    requires i < |s| && IsGrouping(acc, s[..i])
    ensures IsGrouping(Push(acc, s[i]), s[..i + 1])
  {
    var t := s[..i + 1];
    assert t == s[..i] + [s[i]];
    PushKeepsGrouping(acc, s[..i], s[i]);
  }

  /** `groupedAssignments`: the `reduce` that creates a bucket on first sight of a key and pushes into it. */
  method GroupAssignments(s: seq<Assignment>) returns (acc: map<string, GroupBucket>)
    ensures acc == Grouped(s)
  {
    acc := map[];
    var i := 0;
    while i < |s|
      invariant 0 <= i <= |s|
      invariant IsGrouping(acc, s[..i])
    {
      var a := s[i];
      var k := BucketKey(a);
      ghost var before := acc;
      if k !in acc {
        acc := acc[k := GroupBucket(a.group, [])];
      }
      acc := acc[k := acc[k].(assignments := acc[k].assignments + [a])];
      PushStep(before, s, i);
      i := i + 1;
    }
    assert s[..|s|] == s;
    GroupingIsGrouped(acc, s);
  }

  lemma {:induction false} BucketOfMissingKey(s: seq<Assignment>, k: string)
    requires k !in Keys(s)
    ensures Bucket(s, k) == []
    decreases |s|
  {
    if |s| > 0 {
      var init := s[..|s| - 1];
      assert forall i :: 0 <= i < |init| ==> init[i] == s[i];
      BucketOfMissingKey(init, k);
    }
  }

  /** Each assignment sits in the bucket of its own key, and only there. */
  lemma GroupingPlacesEachAssignment(s: seq<Assignment>, a: Assignment)
    requires a in s
    ensures BucketKey(a) in Grouped(s) && a in Grouped(s)[BucketKey(a)].assignments
    ensures forall k :: k in Grouped(s) && a in Grouped(s)[k].assignments ==> k == BucketKey(a)
  {
    BucketKeepsMembers(s, a);
  }

  lemma {:induction false} BucketKeepsMembers(s: seq<Assignment>, a: Assignment)
    requires a in s
    ensures a in Bucket(s, BucketKey(a))
    decreases |s|
  {
    var init := s[..|s| - 1];
    if a != s[|s| - 1] {
      assert a in init by {
        var i :| 0 <= i < |s| && s[i] == a;
        assert init[i] == a;
      }
      BucketKeepsMembers(init, a);
    }
  }

  /** The sum of the sizes of the buckets listed in `keys`. */
  function SizeSum(s: seq<Assignment>, keys: seq<string>): nat
  {
    if |keys| == 0 then 0 else |Bucket(s, keys[0])| + SizeSum(s, keys[1..])
  }

  lemma {:induction false} SizeSumSnoc(s: seq<Assignment>, a: Assignment, keys: seq<string>)
    requires NoDups(keys)
    ensures SizeSum(s + [a], keys) == SizeSum(s, keys) + (if BucketKey(a) in keys then 1 else 0)
    decreases |keys|
  {
    var t := s + [a];
    assert t[..|t| - 1] == s;
    if |keys| > 0 {
      assert NoDups(keys[1..]) by {
        forall i, j | 0 <= i < j < |keys[1..]| ensures keys[1..][i] != keys[1..][j] {
          assert keys[1..][i] == keys[i + 1] && keys[1..][j] == keys[j + 1];
        }
      }
      SizeSumSnoc(s, a, keys[1..]);
      assert keys[0] !in keys[1..];
      assert BucketKey(a) in keys <==> BucketKey(a) == keys[0] || BucketKey(a) in keys[1..];
    }
  }

  lemma {:induction false} SizeSumAppendKey(s: seq<Assignment>, keys: seq<string>, k: string)
    ensures SizeSum(s, keys + [k]) == SizeSum(s, keys) + |Bucket(s, k)|
    decreases |keys|
  {
    if |keys| == 0 {
      assert [k][1..] == [];
    } else {
      assert (keys + [k])[1..] == keys[1..] + [k];
      SizeSumAppendKey(s, keys[1..], k);
    }
  }

  /** The bucket sizes add up to the number of assignments: none is lost or counted twice. */
  lemma {:induction false} BucketSizesSum(s: seq<Assignment>)
    ensures SizeSum(s, Keys(s)) == |s|
    decreases |s|
  {
    if |s| > 0 {
      var init, a := s[..|s| - 1], s[|s| - 1];
      var k := BucketKey(a);
      assert s == init + [a];
      BucketSizesSum(init);
      SizeSumSnoc(init, a, Keys(init));
      assert SizeSum(s, Keys(init)) == |init| + (if k in Keys(init) then 1 else 0);
      if k !in Keys(init) {
        SizeSumAppendKey(s, Keys(init), k);
        BucketOfMissingKey(init, k);
        assert Keys(s) == Keys(init) + [k];
        assert Bucket(s, k) == [a];
      } else {
        assert Keys(s) == Keys(init);
      }
    }
  }

  predicate IsPassed(a: Assignment)
  {
    a.result.Some? && a.result.value.slug == "passed"
  }

  /** `meta?.total ?? assignments.length` */
  function TotalExams(meta: Option<PaginationMeta>, s: seq<Assignment>): int
  {
    if meta.Some? then meta.value.total else |s|
  }

  /** The success rate: 0 without exams, else the rounded share of passed ones. */
  function SuccessRate(passed: nat, total: int): (r: int)
    ensures total <= 0 ==> r == 0
    ensures total > 0 ==> 2 * total * r <= 200 * passed + total < 2 * total * (r + 1)
    ensures passed <= total ==> 0 <= r <= 100
  {
    if total > 0 then RoundPercent(passed, total) else 0
  }

  /** Without pagination data the success rate is a percentage of the page. */
  lemma SuccessRateOfPage(s: seq<Assignment>)
    ensures 0 <= SuccessRate(Count(s, IsPassed), TotalExams(None, s)) <= 100
  {
  }

  /** An attempt-history badge is highlighted when it reaches `Number(passing_score ?? 70)`. */
  function Highlighted(percentage: int, exam: Option<Exam>): (r: bool)
    ensures (exam.None? || exam.value.config.None?) ==> (r <==> percentage >= 70)
    ensures exam.Some? && exam.value.config.Some? && exam.value.config.value.passingScoreSnake in {None, Some(JNull)} ==>
      (r <==> percentage >= 70)
    ensures forall n :: exam.Some? && exam.value.config.Some? && exam.value.config.value.passingScoreSnake == Some(JNum(n)) ==>
      (r <==> percentage >= n)
  {
    var raw := if exam.Some? && exam.value.config.Some? then exam.value.config.value.passingScoreSnake else None;
    var threshold := ToNumber(Coalesce(raw, Some(JNum(70))));
    threshold.Some? && percentage >= threshold.value
  }

  /** The pager controls appear only when there is more than one page. */
  predicate ShowPager(meta: Option<PaginationMeta>)
  {
    meta.Some? && meta.value.lastPage > 1
  }

  /** 'Попередня' is disabled on the first page the server reported. */
  predicate PrevDisabled(meta: PaginationMeta) { meta.currentPage == 1 }

  /** 'Наступна' is disabled from the last page on. */
  predicate NextDisabled(meta: PaginationMeta) { meta.currentPage >= meta.lastPage }

  /** `Math.max(prev - 1, 1)` */
  function PrevPage(page: int): (r: int)
    ensures r >= 1 && r >= page - 1
    ensures page > 1 ==> r == page - 1
  {
    if page - 1 > 1 then page - 1 else 1
  }

  /** `Math.min(prev + 1, meta.last_page)` */
  function NextPage(page: int, lastPage: int): (r: int)
    ensures r <= lastPage && r <= page + 1
    ensures page < lastPage ==> r == page + 1
  {
    if page + 1 < lastPage then page + 1 else lastPage
  }

  /** With a single page, or no pagination data, there are no buttons to press. */
  lemma PagerHiddenForSinglePage(meta: Option<PaginationMeta>)
    requires meta.None? || meta.value.lastPage <= 1
    ensures !ShowPager(meta)
  {
  }

  /**
   * From the page the server reports, an enabled button moves exactly one
   * page, and the page reached is still within `1..last_page`.
   */
  lemma PagerStaysInRange(meta: PaginationMeta)
    requires 1 <= meta.currentPage <= meta.lastPage
    ensures !PrevDisabled(meta) ==> PrevPage(meta.currentPage) == meta.currentPage - 1 && 1 <= meta.currentPage - 1
    ensures !NextDisabled(meta) ==>
      NextPage(meta.currentPage, meta.lastPage) == meta.currentPage + 1 && meta.currentPage + 1 <= meta.lastPage
  {
  }

  /** The page requested from the results service. */
  class ResultsPager {
    var page: int

    predicate Valid()
      reads this
    {
      page >= 1
    }

    constructor()
      ensures page == 1 && Valid()
    {
      page := 1;
    }

    /** 'Попередня': only a shown, enabled button changes the page, to `Math.max(prev - 1, 1)`. */
    method Previous(meta: Option<PaginationMeta>)
      requires Valid()
      modifies this
      ensures Valid()
      ensures ShowPager(meta) && !PrevDisabled(meta.value) ==> page == PrevPage(old(page))
      ensures !(ShowPager(meta) && !PrevDisabled(meta.value)) ==> page == old(page)
    {
      if ShowPager(meta) && !PrevDisabled(meta.value) {
        page := PrevPage(page);
      }
    }

    /** 'Наступна': only a shown, enabled button changes the page, to `Math.min(prev + 1, meta.last_page)`. */
    method Next(meta: Option<PaginationMeta>)
      requires Valid()
      modifies this
      ensures Valid()
      ensures ShowPager(meta) && !NextDisabled(meta.value) ==>
        page == NextPage(old(page), meta.value.lastPage) && page <= meta.value.lastPage
      ensures !(ShowPager(meta) && !NextDisabled(meta.value)) ==> page == old(page)
    {
      if ShowPager(meta) && !NextDisabled(meta.value) {
        page := NextPage(page, meta.value.lastPage);
      }
    }
  }
}

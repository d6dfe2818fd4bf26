/**
 * The forum's topic list (components/admin/Forum.tsx): the query a reload
 * sends, the statistics computed from the returned page and the category
 * colours.
 */
module Forum {
  import opened Wrappers
  import opened Collections

  /** A listed topic; `lastActivityDay` is the calendar day of its last activity. */
  datatype ListedTopic = ListedTopic(id: int, category: string, postsCount: int, isResolved: bool, lastActivityDay: int)

  datatype TopicsReply = TopicsReply(data: seq<ListedTopic>, total: int)

  datatype Stats = Stats(totalTopics: int, totalReplies: int, activeToday: nat, resolved: nat)

  datatype Category = Category(name: string, color: string)

  datatype TopicQuery = TopicQuery(search: string, category: string, sortBy: string, status: Option<string>)

  /** The status filter: absent for the 'all' tab, the tab's value otherwise. */
  function StatusParam(activeTab: string): (r: Option<string>)
    ensures r.None? <==> activeTab == "all"
    ensures r.Some? ==> r.value == activeTab
  {
    if activeTab == "all" then None else Some(activeTab)
  }

  /** `reduce((sum, t) => sum + t.posts_count, 0)` */
  function SumReplies(topics: seq<ListedTopic>): int
  {
    if |topics| == 0 then 0 else SumReplies(topics[..|topics| - 1]) + topics[|topics| - 1].postsCount
  }

  predicate NonNegativeCounts(topics: seq<ListedTopic>)
  {
    forall i :: 0 <= i < |topics| ==> topics[i].postsCount >= 0
  }

  /** Reply counts that are never negative add up to a non-negative total, at least each single count. */
  lemma {:induction false} SumRepliesBounds(topics: seq<ListedTopic>)
    requires NonNegativeCounts(topics)
    ensures SumReplies(topics) >= 0
    ensures forall i :: 0 <= i < |topics| ==> topics[i].postsCount <= SumReplies(topics)
    decreases |topics|
  {
    if |topics| > 0 {
      var init := topics[..|topics| - 1];
      assert forall i :: 0 <= i < |init| ==> init[i] == topics[i];
      SumRepliesBounds(init);
    }
  }

  predicate IsResolved(t: ListedTopic) { t.isResolved }

  /** The statistics of the loaded page; `today` is the current calendar day. */
  function ComputeStats(reply: TopicsReply, today: int): (s: Stats)
    ensures s.totalTopics == reply.total
    ensures s.totalReplies == SumReplies(reply.data)
    ensures s.resolved == |set i | 0 <= i < |reply.data| && reply.data[i].isResolved|
    ensures s.activeToday == |set i | 0 <= i < |reply.data| && reply.data[i].lastActivityDay == today|
    ensures s.resolved <= |reply.data| && s.activeToday <= |reply.data|
    ensures s.resolved == |reply.data| <==> forall i :: 0 <= i < |reply.data| ==> reply.data[i].isResolved
    ensures s.activeToday == 0 <==> forall i :: 0 <= i < |reply.data| ==> reply.data[i].lastActivityDay != today
  {
    ResolvedCount(reply.data);
    ActiveCount(reply.data, today);
    Stats(reply.total, SumReplies(reply.data), Count(reply.data, ActiveOn(today)), Count(reply.data, IsResolved))
  }

  /** The test for a topic last active on `today`. */
  function ActiveOn(today: int): ListedTopic -> bool
  {
    (t: ListedTopic) => t.lastActivityDay == today
  }

  /** The resolved count is the number of positions holding a resolved topic. */
  lemma ResolvedCount(data: seq<ListedTopic>)
    ensures Count(data, IsResolved) == |set i | 0 <= i < |data| && data[i].isResolved|
  {
    CountIsMatchingPositions(data, IsResolved);
    assert Positions(data, IsResolved) == (set i | 0 <= i < |data| && data[i].isResolved);
  }

  /** The active count is the number of positions holding a topic last active on `today`. */
  lemma ActiveCount(data: seq<ListedTopic>, today: int)
    ensures Count(data, ActiveOn(today)) == |set i | 0 <= i < |data| && data[i].lastActivityDay == today|
  {
    CountIsMatchingPositions(data, ActiveOn(today));
    assert Positions(data, ActiveOn(today)) == (set i | 0 <= i < |data| && data[i].lastActivityDay == today);
  }

  /** `getCategoryColor`: the colour of the first category with that name, else the default grey. */
  function CategoryColor(categories: seq<Category>, name: string): (r: string)
    ensures (forall i :: 0 <= i < |categories| ==> categories[i].name != name) ==> r == DefaultColor
    ensures forall j :: 0 <= j < |categories| && categories[j].name == name && (forall k :: 0 <= k < j ==> categories[k].name != name) ==>
      r == (if categories[j].color != "" then categories[j].color else DefaultColor)
    ensures r != ""
  {
    if |categories| == 0 then DefaultColor
    else if categories[0].name == name then (if categories[0].color != "" then categories[0].color else DefaultColor)
    else
      assert forall j :: 1 <= j < |categories| ==> categories[j] == categories[1..][j - 1];
      CategoryColor(categories[1..], name)
  }

  const DefaultColor := "bg-gray-100 text-gray-700"

  /** The list page: the shown topics, the statistics and the loading flag. */
  class TopicList {
    var topics: seq<ListedTopic>
    var stats: Stats
    var isLoading: bool

    constructor()
      ensures topics == [] && stats == Stats(0, 0, 0, 0) && isLoading
    {
      topics, stats, isLoading := [], Stats(0, 0, 0, 0), true;
    }

    /**
     * `loadTopics`: sends the current filters; a page replaces topics and
     * statistics, a failure keeps them; loading ends either way.
     */
    method LoadTopics(search: string, category: string, sortBy: string, activeTab: string,
                      reply: Option<TopicsReply>, today: int) returns (query: TopicQuery)
      modifies this
      ensures query == TopicQuery(search, category, sortBy, StatusParam(activeTab))
      ensures !isLoading
      ensures reply.Some? ==> topics == reply.value.data && stats == ComputeStats(reply.value, today)
      ensures reply.None? ==> topics == old(topics) && stats == old(stats)
    {
      isLoading := true;
      query := TopicQuery(search, category, sortBy, StatusParam(activeTab));
      if reply.Some? {
        topics := reply.value.data;
        stats := ComputeStats(reply.value, today);
      }
      isLoading := false;
    }
  }
}

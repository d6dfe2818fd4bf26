/**
 * One forum topic with its replies (components/admin/ForumTopicDetail.tsx):
 * likes, replying and marking the solution, each applied to the page state
 * after the server's reply.
 */
module ForumTopicDetail {
  import opened Wrappers
  import opened JsText
  import opened Collections

  datatype Topic = Topic(id: int, authorId: int, isLiked: bool, likesCount: int, isResolved: bool)

  datatype Post = Post(id: int, content: string, isLiked: bool, likesCount: int, isSolution: bool)

  /** The server's answer to a like: the new flag and count. */
  datatype LikeReply = LikeReply(liked: bool, likesCount: int)

  /** The `map` of a reply like: only posts with that id take the server's values. */
  function LikePost(posts: seq<Post>, postId: int, r: LikeReply): (result: seq<Post>)
    ensures |result| == |posts|
    ensures forall i :: 0 <= i < |posts| && posts[i].id == postId ==>
      result[i] == posts[i].(isLiked := r.liked, likesCount := r.likesCount)
    ensures forall i :: 0 <= i < |posts| && posts[i].id != postId ==> result[i] == posts[i]
  {
    seq(|posts|, i requires 0 <= i < |posts| =>
      if posts[i].id == postId then posts[i].(isLiked := r.liked, likesCount := r.likesCount) else posts[i])
  }

  /** The `map` after a solution is accepted: exactly the posts with that id are solutions. */
  function MarkSolution(posts: seq<Post>, postId: int): (result: seq<Post>)
    ensures |result| == |posts|
    ensures forall i :: 0 <= i < |posts| ==> result[i] == posts[i].(isSolution := posts[i].id == postId)
  {
    seq(|posts|, i requires 0 <= i < |posts| => posts[i].(isSolution := posts[i].id == postId))
  }

  function PostIds(posts: seq<Post>): seq<int>
  {
    seq(|posts|, i requires 0 <= i < |posts| => posts[i].id)
  }

  predicate IsSolution(p: Post) { p.isSolution }

  /** With distinct post ids, marking a solution leaves exactly one solution when the post exists, none otherwise. */
  lemma {:induction false} OneSolution(posts: seq<Post>, postId: int)
    requires NoDups(PostIds(posts))
    ensures Count(MarkSolution(posts, postId), IsSolution) == if postId in PostIds(posts) then 1 else 0
    decreases |posts|
  {
    var marked := MarkSolution(posts, postId);
    if |posts| > 0 {
      var rest := posts[1..];
      assert PostIds(posts) == [posts[0].id] + PostIds(rest);
      assert NoDups(PostIds(rest)) by {
        forall i, j | 0 <= i < j < |PostIds(rest)| ensures PostIds(rest)[i] != PostIds(rest)[j] {
          assert PostIds(rest)[i] == PostIds(posts)[i + 1] && PostIds(rest)[j] == PostIds(posts)[j + 1];
        }
      }
      OneSolution(rest, postId);
      assert marked[1..] == MarkSolution(rest, postId);
      assert Count(marked, IsSolution) == (if IsSolution(marked[0]) then 1 else 0) + Count(marked[1..], IsSolution);
      if posts[0].id == postId {
        forall j | 0 <= j < |PostIds(rest)| ensures PostIds(rest)[j] != postId {
          assert PostIds(rest)[j] == PostIds(posts)[j + 1];
          assert PostIds(posts)[0] == postId;
          assert PostIds(posts)[0] != PostIds(posts)[j + 1];
        }
      }
    }
  }

  /** `topic.user.id === Number(currentUserId)`: only the topic's author may mark a solution. */
  function CanMarkSolution(t: Topic, currentUserId: Option<string>): (r: bool)
    ensures currentUserId.None? ==> !r
    ensures currentUserId.Some? ==> (r <==> StringToNumber(currentUserId.value) == Some(t.authorId))
  {
    currentUserId.Some? && StringToNumber(currentUserId.value) == Some(t.authorId)
  }

  /** The author's own id, as text, may mark a solution. */
  lemma AuthorCanMarkSolution(t: Topic)
    ensures CanMarkSolution(t, Some(IntToString(t.authorId)))
  {
    StringToNumberOfInt(t.authorId);
  }

  /** The topic page: the loaded topic, its posts and the reply being written. */
  class TopicPage {
    var topic: Option<Topic>
    var posts: seq<Post>
    var newReply: string

    constructor(loaded: Option<(Topic, seq<Post>)>)
      ensures loaded.Some? ==> topic == Some(loaded.value.0) && posts == loaded.value.1
      ensures loaded.None? ==> topic.None? && posts == []
      ensures newReply == ""
    {
      if loaded.Some? {
        topic, posts := Some(loaded.value.0), loaded.value.1;
      } else {
        topic, posts := None, [];
      }
      newReply := "";
    }

    /** `handleLikeTopic`: only the topic's flag and count change, and only when the server answers. */
    method LikeTopic(reply: Option<LikeReply>)
      modifies this
      ensures posts == old(posts) && newReply == old(newReply)
      ensures old(topic).Some? && reply.Some? ==>
        topic == Some(old(topic).value.(isLiked := reply.value.liked, likesCount := reply.value.likesCount))
      ensures old(topic).None? || reply.None? ==> topic == old(topic)
    {
      if topic.Some? && reply.Some? {
        topic := Some(topic.value.(isLiked := reply.value.liked, likesCount := reply.value.likesCount));
      }
    }

    /** `handleLikeReply`: only the liked post changes. */
    method LikeReplyPost(postId: int, reply: Option<LikeReply>)
      modifies this
      ensures topic == old(topic) && newReply == old(newReply)
      ensures reply.Some? ==> posts == LikePost(old(posts), postId, reply.value)
      ensures reply.None? ==> posts == old(posts)
    {
      if reply.Some? {
        posts := LikePost(posts, postId, reply.value);
      }
    }

    /**
     * `handleSubmitReply`: a blank reply or a missing topic sends nothing; an
     * accepted reply is appended and the field cleared; a failed one changes nothing.
     */
    method SubmitReply(created: Option<Post>) returns (sent: Option<string>)
      modifies this
      ensures topic == old(topic)
      ensures sent.Some? <==> Trim(old(newReply)) != "" && old(topic).Some?
      ensures sent.Some? ==> sent.value == old(newReply)
      ensures sent.Some? && created.Some? ==> posts == old(posts) + [created.value] && newReply == ""
      ensures sent.None? || created.None? ==> posts == old(posts) && newReply == old(newReply)
    {
      if Trim(newReply) == "" || topic.None? {
        return None;
      }
      sent := Some(newReply);
      if created.Some? {
        posts := posts + [created.value];
        newReply := "";
      }
    }

    /** `handleMarkAsSolution`: once the server accepts, one post is the solution and the topic is resolved. */
    method MarkAsSolution(postId: int, accepted: bool)
      modifies this
      ensures newReply == old(newReply)
      ensures old(topic).Some? && accepted ==>
        posts == MarkSolution(old(posts), postId) && topic == Some(old(topic).value.(isResolved := true))
      ensures old(topic).None? || !accepted ==> posts == old(posts) && topic == old(topic)
    {
      if topic.Some? && accepted {
        posts := MarkSolution(posts, postId);
        topic := Some(topic.value.(isResolved := true));
      }
    }
  }
}

/**
 `BanFromCommunity` (lemmy_api/src/community.rs): the posts of the banned user are marked by one update,
 the comments one by one, because their community is known through the post only.
 */
module Bans {
  import opened Wrappers
  import opened Sequences
  import opened Paging

  datatype Post = Post(creator: int, community: int, removed: bool, updated: int, text: string)

  datatype Comment = Comment(id: int, creator: int, post: int, removed: bool, updated: int, text: string)

  datatype BanError = NotAModOrAdmin | AlreadyBanned

  ghost predicate DistinctIds(comments: seq<Comment>) {
    forall i, j :: 0 <= i < j < |comments| ==> comments[i].id != comments[j].id
  }

  /** The filters of the query for the banned user's comments in the community. */
  predicate IsTheirs(posts: map<int, Post>, c: Comment, creator: int, community: int) {
    c.creator == creator && c.post in posts && posts[c.post].community == community
  }

  function Theirs(posts: map<int, Post>, comments: seq<Comment>, creator: int, community: int): seq<Comment> {
    Filter(comments, c => IsTheirs(posts, c, creator, community))
  }

  /** One update of the comments with these ids, the clock being read for each. */
  function Marked(comments: seq<Comment>, ids: set<int>, removed: bool, now: int -> int): seq<Comment> {
    seq(|comments|, i requires 0 <= i < |comments| =>
      if comments[i].id in ids then comments[i].(removed := removed, updated := now(comments[i].id)) else comments[i])
  }

  /** The bulk update that SQL would need a join for. */
  function BulkMarked(posts: map<int, Post>, comments: seq<Comment>, creator: int, community: int, removed: bool,
                      now: int -> int): seq<Comment> {
    seq(|comments|, i requires 0 <= i < |comments| =>
      if IsTheirs(posts, comments[i], creator, community)
      then comments[i].(removed := removed, updated := now(comments[i].id)) else comments[i])
  }

  function PostsMarked(posts: map<int, Post>, creator: int, community: int, removed: bool, now: int): map<int, Post> {
    map p | p in posts :: if posts[p].creator == creator && posts[p].community == community
                          then posts[p].(removed := removed, updated := now) else posts[p]
  }

  lemma MarkOneMore(comments: seq<Comment>, ids: set<int>, id: int, removed: bool, now: int -> int)
    ensures Marked(Marked(comments, ids, removed, now), {id}, removed, now)
            == Marked(comments, ids + {id}, removed, now)
  {
  }

  class Tables {
    var bans: set<(int, int)>
    var posts: map<int, Post>
    /** Newest first, the order in which the query lists them. */
    var comments: seq<Comment>

    constructor ()
      ensures bans == {} && posts == map[] && comments == []
    {
      bans, posts, comments := {}, map[], [];
    }

    /** `CommentQueryBuilder` with the creator, the community and the limit set. */
    method ListComments(creator: int, community: int, limit: int) returns (r: Result<seq<Comment>, ()>)
      ensures r == PageOf(Theirs(posts, comments, creator, community), None, Some(limit))
    {
      var (l, offset) := LimitAndOffset(None, Some(limit));
      r := Window(Theirs(posts, comments, creator, community), l, offset);
    }

    method UpdateRemoved(id: int, removed: bool, now: int -> int)
      modifies this`comments
      ensures comments == Marked(old(comments), {id}, removed, now)
    {
      comments := seq(|comments|, i requires 0 <= i < |comments| reads this =>
        if comments[i].id == id then comments[i].(removed := removed, updated := now(id)) else comments[i]);
    }

    method UpdateEach(listed: seq<Comment>, removed: bool, now: int -> int)
      modifies this`comments
      ensures comments == Marked(old(comments), Ids(listed), removed, now)
    {
      for i := 0 to |listed|
        invariant comments == Marked(old(comments), Ids(listed[..i]), removed, now)
      {
        MarkOneMore(old(comments), Ids(listed[..i]), listed[i].id, removed, now);
        UpdateRemoved(listed[i].id, removed, now);
        assert listed[..i + 1] == listed[..i] + [listed[i]];
        assert Ids(listed[..i + 1]) == Ids(listed[..i]) + {listed[i].id};
      }
      assert listed[..|listed|] == listed;
    }

    method BanFromCommunity(modsAndAdmins: set<int>, caller: int, user: int, community: int, ban: bool,
                            removeData: Option<bool>, postNow: int, now: int -> int)
      returns (r: Result<(), BanError>)
      requires DistinctIds(comments) && |comments| <= I64_MAX
      modifies this
      ensures r == if caller !in modsAndAdmins then Failure(NotAModOrAdmin)
                   else if ban && (user, community) in old(bans) then Failure(AlreadyBanned) else Success(())
      ensures bans == if r.Failure? then old(bans)
                      else if ban then old(bans) + {(user, community)}
                      else old(bans) - {(user, community)}
      ensures r.Failure? || removeData.None? ==> posts == old(posts) && comments == old(comments)
      ensures r.Success? && removeData.Some? ==>
                && posts.Keys == old(posts).Keys
                && (forall p :: p in posts ==>
                      posts[p] == var was := old(posts)[p];
                                  if was.creator == user && was.community == community
                                  then Post(user, community, removeData.value, postNow, was.text) else was)
                && |comments| == |old(comments)|
                && (forall i :: 0 <= i < |comments| ==>
                      comments[i] == var was := old(comments)[i];
                                     if was.creator == user && was.post in old(posts)
                                        && old(posts)[was.post].community == community
                                     then Comment(was.id, user, was.post, removeData.value, now(was.id), was.text)
                                     else was)
      ensures r.Success? && removeData.Some? ==>
                && posts == PostsMarked(old(posts), user, community, removeData.value, postNow)
                && comments == BulkMarked(old(posts), old(comments), user, community, removeData.value, now)
    {
      if caller !in modsAndAdmins {
        return Failure(NotAModOrAdmin);
      }
      if ban {
        if (user, community) in bans {
          return Failure(AlreadyBanned);
        }
        bans := bans + {(user, community)};
      } else {
        bans := bans - {(user, community)};
      }
      if removeData.Some? {
        posts := PostsMarked(posts, user, community, removeData.value, postNow);
        assert forall c :: IsTheirs(posts, c, user, community) <==> IsTheirs(old(posts), c, user, community);
        var listed := ListComments(user, community, I64_MAX);
        WholeWindow(Theirs(posts, comments, user, community));
        MarkEachIsBulk(posts, old(posts), comments, user, community, removeData.value, now);
        UpdateEach(listed.value, removeData.value, now);
      }
      r := Success(());
    }
  }

  function Ids(comments: seq<Comment>): set<int> {
    set c | c in comments :: c.id
  }

  /** A limit of the largest 64-bit number is no limit. */
  lemma WholeWindow(rows: seq<Comment>)
    requires |rows| <= I64_MAX
    ensures PageOf(rows, None, Some(I64_MAX)) == Success(rows)
  {
    assert LimitAndOffset(None, Some(I64_MAX)) == (I64_MAX, 0);
    assert Slice(rows, 0, I64_MAX) == rows;
  }

  /** Marking the listed comments one by one is the bulk update: it reaches all of theirs and no other. */
  lemma MarkEachIsBulk(posts: map<int, Post>, before: map<int, Post>, comments: seq<Comment>, creator: int,
                       community: int, removed: bool, now: int -> int)
    requires DistinctIds(comments)
    requires forall c :: IsTheirs(posts, c, creator, community) <==> IsTheirs(before, c, creator, community)
    ensures Marked(comments, Ids(Theirs(posts, comments, creator, community)), removed, now)
            == BulkMarked(before, comments, creator, community, removed, now)
  {
    var ids := Ids(Theirs(posts, comments, creator, community));
    forall i | 0 <= i < |comments|
      ensures comments[i].id in ids <==> IsTheirs(posts, comments[i], creator, community)
    {
      if IsTheirs(posts, comments[i], creator, community) {
        assert comments[i] in Theirs(posts, comments, creator, community);
      } else if comments[i].id in ids {
        var c :| c in Theirs(posts, comments, creator, community) && c.id == comments[i].id;
        var j :| 0 <= j < |comments| && comments[j] == c;
        assert false;
      }
    }
  }
}

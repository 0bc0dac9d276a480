/**
 Votes on posts: the post_like rows of lemmy_db/src/post.rs, a local vote (lemmy_api/src/post.rs) and
 what the activity it sends does elsewhere (lemmy_apub/src/activities/receive).
 */
module Votes {
  import opened Wrappers
  import opened Replication

  type UserId = string
  type PostId = string

  datatype PostLike = PostLike(post: PostId, user: UserId, score: int)

  type Rows = seq<PostLike>

  /** `delete ... where post_id = ... and user_id = ...` */
  function Removed(rows: Rows, user: UserId, post: PostId): Rows {
    if rows == [] then []
    else (if rows[0].post == post && rows[0].user == user then [] else [rows[0]]) + Removed(rows[1..], user, post)
  }

  /** The vote of a user on a post. */
  function VoteOf(rows: Rows, user: UserId, post: PostId): Option<int> {
    if rows == [] then None
    else if rows[0].post == post && rows[0].user == user then Some(rows[0].score)
    else VoteOf(rows[1..], user, post)
  }

  /** The score of a post. */
  function Total(rows: Rows, post: PostId): int {
    if rows == [] then 0 else (if rows[0].post == post then rows[0].score else 0) + Total(rows[1..], post)
  }

  /** The unique index, and the two scores a row can have. */
  ghost predicate RowsOk(rows: Rows) {
    && (forall i, j :: 0 <= i < j < |rows| ==> rows[i].post != rows[j].post || rows[i].user != rows[j].user)
    && (forall r :: r in rows ==> r.score == 1 || r.score == -1)
  }

  /** Remove the old vote, then add the new one if there is one. */
  function Voted(rows: Rows, user: UserId, post: PostId, score: int): Rows {
    Removed(rows, user, post) + if score == 1 || score == -1 then [PostLike(post, user, score)] else []
  }

  class PostLikes {
    var rows: Rows

    constructor ()
      ensures rows == []
    {
      rows := [];
    }

    method Remove(user: UserId, post: PostId)
      modifies this
      ensures rows == Removed(old(rows), user, post)
    {
      var kept: Rows := [];
      for i := 0 to |rows|
        invariant rows == old(rows) && kept + Removed(rows[i..], user, post) == Removed(rows, user, post)
      {
        assert rows[i..][1..] == rows[i + 1..];
        if !(rows[i].post == post && rows[i].user == user) {
          kept := kept + [rows[i]];
        }
      }
      rows := kept;
    }

    /** Fails on the unique index when the user already has a row for the post. */
    method Like(form: PostLike) returns (ok: bool)
      modifies this
      ensures ok == VoteOf(old(rows), form.user, form.post).None?
      ensures rows == old(rows) + if ok then [form] else []
    {
      ok := VoteOf(rows, form.user, form.post).None?;
      if ok {
        rows := rows + [form];
      }
    }
  }

  /**
   `after` has this vote of the user on the post, and everything else of `before`: every other vote, every other post's
   score, and at most one row per user and post.
   */
  ghost predicate IsVote(before: Rows, after: Rows, user: UserId, post: PostId, vote: Option<int>) {
    && VoteOf(after, user, post) == vote
    && (forall u, p :: (u, p) != (user, post) ==> VoteOf(after, u, p) == VoteOf(before, u, p))
    && (RowsOk(before) ==>
          && RowsOk(after)
          && (forall p :: p != post ==> Total(after, p) == Total(before, p))
          && Total(after, post) == Total(before, post) - Points(VoteOf(before, user, post)) + Points(vote))
  }

  lemma VotedIsVote(rows: Rows, user: UserId, post: PostId, score: int)
    ensures IsVote(rows, Voted(rows, user, post, score), user, post, if score in {1, -1} then Some(score) else None)
  {
    var after := Voted(rows, user, post, score);
    VotedVote(rows, user, post, score, user, post);
    forall u, p | (u, p) != (user, post) ensures VoteOf(after, u, p) == VoteOf(rows, u, p) {
      VotedVote(rows, user, post, score, u, p);
    }
    if RowsOk(rows) {
      VotedKeepsRowsOk(rows, user, post, score);
      var change := Points(VoteOf(after, user, post)) - Points(VoteOf(rows, user, post));
      forall p ensures Total(after, p) - Total(rows, p) == if p == post then change else 0 {
        TotalChanges(rows, user, post, score, p);
      }
    }
  }

  /** The vote of a user is what the rows say. */
  lemma {:induction false} VoteOfIsARow(rows: Rows, user: UserId, post: PostId, score: int)
    requires RowsOk(rows)
    ensures VoteOf(rows, user, post) == Some(score) <==> PostLike(post, user, score) in rows
    ensures VoteOf(rows, user, post).None? <==> forall r :: r in rows ==> r.post != post || r.user != user
  {
    if rows != [] {
      assert forall i :: 0 <= i < |rows[1..]| ==> rows[1..][i] == rows[i + 1];
      VoteOfIsARow(rows[1..], user, post, score);
      assert rows == [rows[0]] + rows[1..];
    }
  }

  // ---------- the voter's instance ----------

  datatype Vote = Vote(user: UserId, post: PostId, score: int)

  datatype Message =
    | LikeMessage(user: UserId, post: PostId)
    | DislikeMessage(user: UserId, post: PostId)
    | UndoMessage(user: UserId, post: PostId)

  /** An instance's downvote switch and its community bans, as (user, post) pairs. */
  datatype Rules = Rules(enableDownvotes: bool, banned: set<(UserId, PostId)>)

  /** A vote of 0, or of any other number, takes the vote back; the Undo always wraps a Like. */
  function MessageFor(v: Vote): Message {
    if v.score == 1 then LikeMessage(v.user, v.post)
    else if v.score == -1 then DislikeMessage(v.user, v.post)
    else UndoMessage(v.user, v.post)
  }

  predicate Refused(rules: Rules, v: Vote) {
    (v.score == -1 && !rules.enableDownvotes) || (v.user, v.post) in rules.banned
  }

  /**
   `admitted` says that the community's inbox passes the check for instances. If it does not, the voter gets an
   error, but the row has been changed already.
   */
  function LocalAct(rules: Rules, admitted: bool): (Rows, Vote) -> (Rows, Option<Message>) {
    (rows: Rows, v: Vote) =>
      if Refused(rules, v) then (rows, None)
      else (Voted(rows, v.user, v.post, v.score), if admitted then Some(MessageFor(v)) else None)
  }

  class VoterInstance {
    const likes: PostLikes
    const rules: Rules
    const admitted: bool
    var outbox: seq<Message>

    constructor (likes: PostLikes, rules: Rules, admitted: bool)
      ensures this.likes == likes && this.rules == rules && this.admitted == admitted && outbox == []
    {
      this.likes, this.rules, this.admitted, outbox := likes, rules, admitted, [];
    }

    method SendToCommunity(message: Message) returns (ok: bool)
      modifies this`outbox
      ensures ok == admitted && outbox == old(outbox) + if ok then [message] else []
    {
      ok := admitted;
      if ok {
        outbox := outbox + [message];
      }
    }

    /** The insertion cannot fail: the old row has just been removed. */
    method CreatePostLike(v: Vote) returns (ok: bool)
      modifies this`outbox, likes
      ensures ok == (!Refused(rules, v) && admitted)
      ensures likes.rows == LocalAct(rules, admitted)(old(likes.rows), v).0
      ensures outbox == old(outbox) + (if ok then [MessageFor(v)] else [])
      ensures if (v.score == -1 && !rules.enableDownvotes) || (v.user, v.post) in rules.banned
              then !ok && likes.rows == old(likes.rows)
              else
                && IsVote(old(likes.rows), likes.rows, v.user, v.post,
                          if v.score in {1, -1} then Some(v.score) else None)
                && ok == admitted
      ensures outbox == old(outbox) + if !ok then []
                                      else if v.score == 1 then [LikeMessage(v.user, v.post)]
                                      else if v.score == -1 then [DislikeMessage(v.user, v.post)]
                                      else [UndoMessage(v.user, v.post)]
    {
      VotedIsVote(likes.rows, v.user, v.post, v.score);
      if v.score == -1 && !rules.enableDownvotes {
        return false;
      }
      if (v.user, v.post) in rules.banned {
        return false;
      }
      likes.Remove(v.user, v.post);
      var doAdd := v.score != 0 && (v.score == 1 || v.score == -1);
      if doAdd {
        RemovedVote(old(likes.rows), v.user, v.post, v.user, v.post);
        var added := likes.Like(PostLike(v.post, v.user, v.score));
        assert added;
        if v.score == 1 {
          ok := SendToCommunity(LikeMessage(v.user, v.post));
        } else {
          ok := SendToCommunity(DislikeMessage(v.user, v.post));
        }
      } else {
        ok := SendToCommunity(UndoMessage(v.user, v.post));
      }
    }
  }

  // ---------- the receiving instance ----------

  function Received(rules: Rules, rows: Rows, m: Message): Rows {
    if (m.user, m.post) in rules.banned then rows
    else
      match m
      case LikeMessage(user, post) => Voted(rows, user, post, 1)
      case DislikeMessage(user, post) => if rules.enableDownvotes then Voted(rows, user, post, -1) else rows
      case UndoMessage(user, post) => Voted(rows, user, post, 0)
  }

  function RemoteApply(rules: Rules): (Rows, Message) -> Rows {
    (rows: Rows, m: Message) => Received(rules, rows, m)
  }

  class ReplicaInstance {
    const likes: PostLikes
    const rules: Rules

    constructor (likes: PostLikes, rules: Rules)
      ensures this.likes == likes && this.rules == rules
    {
      this.likes, this.rules := likes, rules;
    }

    method Receive(m: Message)
      modifies likes
      ensures likes.rows == RemoteApply(rules)(old(likes.rows), m)
      ensures if (m.user, m.post) in rules.banned || (m.DislikeMessage? && !rules.enableDownvotes)
              then likes.rows == old(likes.rows)
              else IsVote(old(likes.rows), likes.rows, m.user, m.post,
                          if m.LikeMessage? then Some(1) else if m.DislikeMessage? then Some(-1) else None)
    {
      VotedIsVote(likes.rows, m.user, m.post, if m.LikeMessage? then 1 else if m.DislikeMessage? then -1 else 0);
      if (m.user, m.post) in rules.banned {
        return;
      }
      match m {
        case LikeMessage(user, post) =>
          ReplaceVote(user, post, 1);
        case DislikeMessage(user, post) =>
          if rules.enableDownvotes {
            ReplaceVote(user, post, -1);
          }
        case UndoMessage(user, post) =>
          likes.Remove(user, post);
      }
    }

    method ReplaceVote(user: UserId, post: PostId, score: int)
      requires score == 1 || score == -1
      modifies likes
      ensures likes.rows == Voted(old(likes.rows), user, post, score)
    {
      likes.Remove(user, post);
      RemovedVote(old(likes.rows), user, post, user, post);
      var added := likes.Like(PostLike(post, user, score));
      assert added;
    }
  }

  // ---------- one vote ----------

  lemma {:induction false} RemovedVote(rows: Rows, user: UserId, post: PostId, u: UserId, p: PostId)
    ensures VoteOf(Removed(rows, user, post), u, p) == if (u, p) == (user, post) then None else VoteOf(rows, u, p)
  {
    if rows != [] {
      RemovedVote(rows[1..], user, post, u, p);
      var rest := Removed(rows[1..], user, post);
      assert ([rows[0]] + rest)[1..] == rest;
      assert [] + rest == rest;
    }
  }

  lemma {:induction false} VoteOfLast(rows: Rows, r: PostLike, u: UserId, p: PostId)
    ensures VoteOf(rows + [r], u, p) == if VoteOf(rows, u, p).Some? then VoteOf(rows, u, p)
                                        else if (u, p) == (r.user, r.post) then Some(r.score) else None
  {
    if rows == [] {
      assert rows + [r] == [r];
    } else {
      assert (rows + [r])[1..] == rows[1..] + [r];
      VoteOfLast(rows[1..], r, u, p);
    }
  }

  /** A vote sets the voter's own vote on that post and nothing else. */
  lemma VotedVote(rows: Rows, user: UserId, post: PostId, score: int, u: UserId, p: PostId)
    ensures VoteOf(Voted(rows, user, post, score), u, p)
            == if (u, p) != (user, post) then VoteOf(rows, u, p)
               else if score == 1 || score == -1 then Some(score) else None
  {
    RemovedVote(rows, user, post, u, p);
    if score == 1 || score == -1 {
      VoteOfLast(Removed(rows, user, post), PostLike(post, user, score), u, p);
    } else {
      assert Voted(rows, user, post, score) == Removed(rows, user, post);
    }
  }

  lemma {:induction false} RemovedRows(rows: Rows, user: UserId, post: PostId)
    ensures forall r :: r in Removed(rows, user, post) <==> r in rows && !(r.post == post && r.user == user)
    ensures RowsOk(rows) ==> RowsOk(Removed(rows, user, post))
  {
    if rows != [] {
      RemovedRows(rows[1..], user, post);
      if RowsOk(rows) {
        assert forall i :: 0 <= i < |rows[1..]| ==> rows[1..][i] == rows[i + 1];
        var rest := Removed(rows[1..], user, post);
        assert forall r :: r in rest ==> r.post != rows[0].post || r.user != rows[0].user;
      }
    }
  }

  /** Each user has at most one row per post, and its score is 1 or -1. */
  lemma VotedKeepsRowsOk(rows: Rows, user: UserId, post: PostId, score: int)
    requires RowsOk(rows)
    ensures RowsOk(Voted(rows, user, post, score))
  {
    RemovedRows(rows, user, post);
    var kept := Removed(rows, user, post);
    assert forall i :: 0 <= i < |kept| ==> kept[i] in kept;
  }

  function Points(vote: Option<int>): int {
    if vote.Some? then vote.value else 0
  }

  lemma {:induction false} TotalAppend(a: Rows, b: Rows, post: PostId)
    ensures Total(a + b, post) == Total(a, post) + Total(b, post)
  {
    if a == [] {
      assert a + b == b;
    } else {
      assert (a + b)[1..] == a[1..] + b;
      TotalAppend(a[1..], b, post);
    }
  }

  lemma {:induction false} RemovedTotal(rows: Rows, user: UserId, post: PostId, p: PostId)
    requires RowsOk(rows)
    ensures Total(Removed(rows, user, post), p)
            == Total(rows, p) - if p == post then Points(VoteOf(rows, user, post)) else 0
  {
    if rows != [] {
      assert forall i :: 0 <= i < |rows[1..]| ==> rows[1..][i] == rows[i + 1];
      var rest := Removed(rows[1..], user, post);
      if rows[0].post == post && rows[0].user == user {
        NothingToRemove(rows[1..], user, post);
        assert [] + rest == rest;
      } else {
        RemovedTotal(rows[1..], user, post, p);
        assert ([rows[0]] + rest)[1..] == rest;
      }
    }
  }

  lemma {:induction false} NothingToRemove(rows: Rows, user: UserId, post: PostId)
    requires forall r :: r in rows ==> !(r.post == post && r.user == user)
    ensures Removed(rows, user, post) == rows
  {
    if rows != [] {
      assert rows[0] in rows;
      NothingToRemove(rows[1..], user, post);
      assert [rows[0]] + rows[1..] == rows;
    }
  }

  /** The score of the post changes by exactly the new vote minus the old one; no other score changes. */
  lemma TotalChanges(rows: Rows, user: UserId, post: PostId, score: int, p: PostId)
    requires RowsOk(rows)
    ensures var after := Voted(rows, user, post, score);
            Total(after, p) - Total(rows, p)
            == if p == post then Points(VoteOf(after, user, post)) - Points(VoteOf(rows, user, post)) else 0
  {
    RemovedTotal(rows, user, post, p);
    VotedVote(rows, user, post, score, user, post);
    TotalAppend(Removed(rows, user, post), if score == 1 || score == -1 then [PostLike(post, user, score)] else [], p);
  }

  // ---------- replication ----------

  type VoteLink = Link<Rows, Rows, Message>

  /** The same vote by `user` on `post` on both sides. */
  ghost predicate SameVote(a: Rows, b: Rows, user: UserId, post: PostId) {
    VoteOf(a, user, post) == VoteOf(b, user, post)
  }

  /** The votes that a replica without downvotes takes over. */
  function WithoutDownvotes(es: seq<Event<Vote>>): seq<Vote> {
    if es == [] then []
    else
      (if es[0].Act? && es[0].action.score != -1 then [es[0].action] else []) + WithoutDownvotes(es[1..])
  }

  function Locally(rules: Rules, rows: Rows, votes: seq<Vote>): Rows
    decreases votes
  {
    if votes == [] then rows else Locally(rules, LocalAct(rules, true)(rows, votes[0]).0, votes[1..])
  }

  /** The replica does to its rows what the voter's instance did, unless it drops the Dislike. */
  lemma ActKeepsSameVote(local: Rules, remote: Rules, a: Rows, b: Rows, v: Vote, user: UserId, post: PostId)
    requires SameVote(a, b, user, post) && (user, post) !in remote.banned && (remote.enableDownvotes || v.score != -1)
    ensures var (rows, m) := LocalAct(local, true)(a, v);
            SameVote(rows, if m.Some? then RemoteApply(remote)(b, m.value) else b, user, post)
  {
    VotedVote(a, v.user, v.post, v.score, user, post);
    VotedVote(b, v.user, v.post, v.score, user, post);
    VotedVote(b, v.user, v.post, 0, user, post);
  }

  /** Somebody else's vote, and one that the voter's instance refuses, leave both sides alone. */
  lemma OtherActKeepsVotes(local: Rules, remote: Rules, admitted: bool, a: Rows, b: Rows, v: Vote, user: UserId,
                           post: PostId)
    requires (v.user, v.post) != (user, post) || Refused(local, v)
    ensures var (rows, m) := LocalAct(local, admitted)(a, v);
            && SameVote(rows, a, user, post)
            && SameVote(if m.Some? then RemoteApply(remote)(b, m.value) else b, b, user, post)
  {
    VotedVote(a, v.user, v.post, v.score, user, post);
    VotedVote(b, v.user, v.post, v.score, user, post);
    VotedVote(b, v.user, v.post, 0, user, post);
  }

  /**
   What it takes for the votes of a user on a post to agree: the voter's own instance lets none of them through, or all
   that it lets through are sent, and taken over by the replica.
   */
  predicate CanAgree(local: Rules, remote: Rules, admitted: bool, user: UserId, post: PostId) {
    || (user, post) in local.banned
    || (admitted && (user, post) !in remote.banned && (remote.enableDownvotes || !local.enableDownvotes))
  }

  /** In every run, what is still under way turns the replica's vote into the sender's. */
  lemma {:induction false} VotesConverge(local: Rules, remote: Rules, admitted: bool, l: VoteLink, es: seq<Event<Vote>>,
                                         user: UserId, post: PostId)
    requires LinkOk(l) && CanAgree(local, remote, admitted, user, post)
    requires SameVote(l.sender, Replay(RemoteApply(remote), l), user, post)
    ensures var n := RunLink(LocalAct(local, admitted), RemoteApply(remote), l, es);
            && LinkOk(n) && SameVote(n.sender, Replay(RemoteApply(remote), n), user, post)
            && (n.next == |n.sent| ==> SameVote(n.sender, n.receiver, user, post))
    decreases es
  {
    if es == [] {
      assert l.next == |l.sent| ==> l.sent[l.next..] == [];
    } else {
      StepReplay(LocalAct(local, admitted), RemoteApply(remote), l, es[0]);
      var next := LinkStep(LocalAct(local, admitted), RemoteApply(remote), l, es[0]);
      if es[0].Act? {
        var v, replayed := es[0].action, Replay(RemoteApply(remote), l);
        if (v.user, v.post) != (user, post) || Refused(local, v) {
          OtherActKeepsVotes(local, remote, admitted, l.sender, replayed, v, user, post);
        } else {
          ActKeepsSameVote(local, remote, l.sender, replayed, v, user, post);
        }
      }
      VotesConverge(local, remote, admitted, next, es[1..], user, post);
    }
  }

  ghost predicate AgreesWhenDrained(local: Rules, remote: Rules, admitted: bool, l: VoteLink, es: seq<Event<Vote>>,
                                    user: UserId, post: PostId) {
    var n := RunLink(LocalAct(local, admitted), RemoteApply(remote), l, es);
    n.next == |n.sent| ==> SameVote(n.sender, n.receiver, user, post)
  }

  ghost predicate AlwaysAgrees(local: Rules, remote: Rules, admitted: bool, user: UserId, post: PostId) {
    forall l: VoteLink, es: seq<Event<Vote>> ::
      LinkOk(l) && SameVote(l.sender, Replay(RemoteApply(remote), l), user, post)
      ==> AgreesWhenDrained(local, remote, admitted, l, es, user, post)
  }

  /** The votes agree in all runs exactly under that condition. */
  lemma VotesAgreeIff(local: Rules, remote: Rules, admitted: bool, user: UserId, post: PostId)
    ensures AlwaysAgrees(local, remote, admitted, user, post) <==> CanAgree(local, remote, admitted, user, post)
  {
    if CanAgree(local, remote, admitted, user, post) {
      forall l: VoteLink, es: seq<Event<Vote>> |
        LinkOk(l) && SameVote(l.sender, Replay(RemoteApply(remote), l), user, post)
        ensures AgreesWhenDrained(local, remote, admitted, l, es, user, post)
      {
        VotesConverge(local, remote, admitted, l, es, user, post);
      }
    } else {
      FirstVoteIsLost(local, remote, admitted, user, post);
    }
  }

  /**
   From empty tables one vote is enough for them to part: an upvote, or a downvote that only the voter's instance
   takes.
   */
  lemma FirstVoteIsLost(local: Rules, remote: Rules, admitted: bool, user: UserId, post: PostId)
    requires !CanAgree(local, remote, admitted, user, post)
    ensures var l: VoteLink := Link([], [], [], {}, 0);
            var score := if admitted && (user, post) !in remote.banned then -1 else 1;
            && LinkOk(l) && SameVote(l.sender, Replay(RemoteApply(remote), l), user, post)
            && !AgreesWhenDrained(local, remote, admitted, l, [Act(Vote(user, post, score)), Deliver(0)], user, post)
  {
    var act, apply := LocalAct(local, admitted), RemoteApply(remote);
    var l: VoteLink := Link([], [], [], {}, 0);
    var v := Vote(user, post, if admitted && (user, post) !in remote.banned then -1 else 1);
    var es: seq<Event<Vote>> := [Act(v), Deliver(0)];
    assert Replay(apply, l) == [];
    var l1 := LinkStep(act, apply, l, es[0]);
    assert l1.sender == Voted([], user, post, v.score) && l1.sent == if admitted then [MessageFor(v)] else [];
    VotedVote([], user, post, v.score, user, post);
    var l2 := LinkStep(act, apply, l1, es[1]);
    assert l2.receiver == [] && l2.next == |l2.sent|;
    assert es[1..] == [es[1]] && es[1..][1..] == [];
    assert RunLink(act, apply, l1, es[1..]) == l2;
  }

  /**
   A replica with downvotes disabled ends up, for every user it has not banned, as if the sender's run had
   been played without its Dislikes. The old vote then stays, although the sender replaced it.
   */
  lemma {:induction false} VotesConvergeWithoutDownvotes(local: Rules, remote: Rules, l: VoteLink, es: seq<Event<Vote>>,
                                                         shadow: Rows, user: UserId, post: PostId)
    requires LinkOk(l) && !remote.enableDownvotes && (user, post) !in remote.banned
    requires SameVote(shadow, Replay(RemoteApply(remote), l), user, post)
    ensures var n := RunLink(LocalAct(local, true), RemoteApply(remote), l, es);
            var expected := Locally(local, shadow, WithoutDownvotes(es));
            && LinkOk(n) && SameVote(expected, Replay(RemoteApply(remote), n), user, post)
            && (n.next == |n.sent| ==> SameVote(expected, n.receiver, user, post))
    decreases es
  {
    if es == [] {
      assert l.next == |l.sent| ==> l.sent[l.next..] == [];
    } else {
      StepReplay(LocalAct(local, true), RemoteApply(remote), l, es[0]);
      var next := LinkStep(LocalAct(local, true), RemoteApply(remote), l, es[0]);
      var rest := WithoutDownvotes(es[1..]);
      if es[0].Act? && es[0].action.score != -1 {
        var v := es[0].action;
        ActKeepsSameVote(local, remote, shadow, Replay(RemoteApply(remote), l), v, user, post);
        assert ([v] + rest)[1..] == rest;
        assert Locally(local, shadow, WithoutDownvotes(es)) == Locally(local, LocalAct(local, true)(shadow, v).0, rest);
        VotesConvergeWithoutDownvotes(local, remote, next, es[1..], LocalAct(local, true)(shadow, v).0, user, post);
      } else {
        assert WithoutDownvotes(es) == rest;
        VotesConvergeWithoutDownvotes(local, remote, next, es[1..], shadow, user, post);
      }
    }
  }
}

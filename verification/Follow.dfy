/**
 Following a community of another instance (ActivityPub, sections 7.5, 7.6 and 7.12): the follower rows
 of lemmy_db/src/community.rs on both sides, and the handlers that change them.

 Rows are stated by presence; the `pending` column is carried along, but accepting a follow writes the
 same value that requesting it does.
 */
module Follow {
  import opened Wrappers
  import opened Replication

  type UserId = string
  type CommunityId = string

  datatype Pair = Pair(user: UserId, community: CommunityId)

  /** The follower rows, unique by user and community, with the `pending` column. */
  type Rows = map<Pair, bool>

  /** What the user's instance sends to the community's. */
  datatype Message = FollowMessage(pair: Pair) | UndoFollowMessage(pair: Pair)

  class CommunityFollowers {
    var rows: Rows

    constructor ()
      ensures rows == map[]
    {
      rows := map[];
    }

    /** Inserting a second row for the pair violates the unique index. */
    method Follow(pair: Pair, pending: bool) returns (ok: bool)
      modifies this
      ensures ok == (pair !in old(rows))
      ensures rows == if ok then old(rows)[pair := pending] else old(rows)
    {
      ok := pair !in rows;
      if ok {
        rows := rows[pair := pending];
      }
    }

    method FollowAccepted(pair: Pair) returns (ok: bool)
      modifies this
      ensures ok == (pair in old(rows))
      ensures rows == if ok then old(rows)[pair := true] else old(rows)
    {
      ok := pair in rows;
      if ok {
        rows := rows[pair := true];
      }
    }

    method Unfollow(pair: Pair) returns (deleted: nat)
      modifies this
      ensures deleted == (if pair in old(rows) then 1 else 0) && rows == old(rows) - {pair}
    {
      deleted := if pair in rows then 1 else 0;
      rows := rows - {pair};
    }
  }

  /** Every other pair has the row it had, or none as before. */
  ghost predicate OthersStay(before: Rows, after: Rows, pair: Pair) {
    after - {pair} == before - {pair}
  }

  // ---------- the user's instance ----------

  datatype Action = Subscribe(pair: Pair) | Unsubscribe(pair: Pair) | AcceptArrives(pair: Pair)

  /**
   What an action does to the rows of the user's instance, and what it sends. `admitted` says that the community's
   inbox passes the check for instances; to one that does not, nothing is sent, and that is not an error.
   */
  function UserAct(admitted: bool): (Rows, Action) -> (Rows, Option<Message>) {
    (rows: Rows, a: Action) =>
      match a
      case Subscribe(pair) =>
        (if pair in rows then rows else rows[pair := true], if admitted then Some(FollowMessage(pair)) else None)
      case Unsubscribe(pair) => (rows - {pair}, if admitted then Some(UndoFollowMessage(pair)) else None)
      case AcceptArrives(pair) => (if pair in rows then rows[pair := true] else rows, None)
  }

  function Sent(message: Option<Message>): seq<Message> {
    if message.Some? then [message.value] else []
  }

  class UserInstance {
    const followers: CommunityFollowers
    const admitted: bool
    var outbox: seq<Message>

    constructor (followers: CommunityFollowers, admitted: bool)
      ensures this.followers == followers && this.admitted == admitted && outbox == []
    {
      this.followers, this.admitted, outbox := followers, admitted, [];
    }

    method SendActivitySingleDest(message: Message)
      modifies this`outbox
      ensures outbox == old(outbox) + if admitted then [message] else []
    {
      if admitted {
        outbox := outbox + [message];
      }
    }

    /** A row that is there already is not an error, and the Follow is sent again. */
    method SendFollow(pair: Pair)
      modifies this`outbox, followers
      ensures var (rows, message) := UserAct(admitted)(old(followers.rows), Subscribe(pair));
              followers.rows == rows && outbox == old(outbox) + Sent(message)
    {
      var _ := followers.Follow(pair, true);
      SendActivitySingleDest(FollowMessage(pair));
    }

    /** `FollowCommunity` on a remote community, both ways. */
    method FollowCommunity(pair: Pair, follow: bool)
      modifies this`outbox, followers
      ensures var action := if follow then Subscribe(pair) else Unsubscribe(pair);
              var (rows, message) := UserAct(admitted)(old(followers.rows), action);
              followers.rows == rows && outbox == old(outbox) + Sent(message)
      ensures (pair in followers.rows) == follow && OthersStay(old(followers.rows), followers.rows, pair)
      ensures follow && pair in old(followers.rows) ==> followers.rows == old(followers.rows)
      ensures follow && pair !in old(followers.rows) ==> followers.rows[pair]
      ensures outbox == old(outbox) + if !admitted then []
                                      else [if follow then FollowMessage(pair) else UndoFollowMessage(pair)]
    {
      if follow {
        SendFollow(pair);
      } else {
        SendActivitySingleDest(UndoFollowMessage(pair));
        var _ := followers.Unfollow(pair);
      }
    }

    method ReceiveAccept(pair: Pair) returns (ok: bool)
      modifies followers
      ensures ok == (pair in old(followers.rows))
      ensures followers.rows == UserAct(admitted)(old(followers.rows), AcceptArrives(pair)).0
      ensures followers.rows.Keys == old(followers.rows).Keys && OthersStay(old(followers.rows), followers.rows, pair)
      ensures ok ==> followers.rows[pair]
    {
      ok := followers.FollowAccepted(pair);
    }
  }

  // ---------- the community's instance ----------

  /** A banned user's activity is refused after it was logged. */
  function HostApply(banned: set<Pair>): (Rows, Message) -> Rows {
    (rows: Rows, m: Message) =>
      if m.pair in banned then rows
      else
        match m
        case FollowMessage(pair) => if pair in rows then rows else rows[pair := false]
        case UndoFollowMessage(pair) => rows - {pair}
  }

  class CommunityInstance {
    const followers: CommunityFollowers
    const banned: set<Pair>
    /** The Accept activities sent back. */
    var accepts: seq<Pair>

    constructor (followers: CommunityFollowers, banned: set<Pair>)
      ensures this.followers == followers && this.banned == banned && accepts == []
    {
      this.followers, this.banned, accepts := followers, banned, [];
    }

    method ReceiveMessage(m: Message) returns (ok: bool)
      modifies this, followers
      ensures followers.rows == HostApply(banned)(old(followers.rows), m)
      ensures ok == (m.pair !in banned)
      ensures accepts == old(accepts) + (if ok && m.FollowMessage? then [m.pair] else [])
      ensures !ok ==> followers.rows == old(followers.rows)
      ensures ok ==>
                && (m.pair in followers.rows) == m.FollowMessage?
                && OthersStay(old(followers.rows), followers.rows, m.pair)
                && (m.FollowMessage? && m.pair in old(followers.rows) ==> followers.rows == old(followers.rows))
                && (m.FollowMessage? && m.pair !in old(followers.rows) ==> !followers.rows[m.pair])
    {
      if m.pair in banned {
        return false;
      }
      match m {
        case FollowMessage(pair) =>
          // already being a follower is not an error
          var _ := followers.Follow(pair, false);
          accepts := accepts + [pair];
        case UndoFollowMessage(pair) =>
          var _ := followers.Unfollow(pair);
      }
      ok := true;
    }
  }

  // ---------- the protocol ----------

  type FollowLink = Link<Rows, Rows, Message>

  ghost predicate SamePair(a: Rows, b: Rows, pair: Pair) {
    pair in a <==> pair in b
  }

  /**
   In every run, with every redelivery and with Accepts arriving at any time, what is still under way
   turns the community's row of an unbanned pair into the user instance's.
   */
  lemma {:induction false} PairConverges(banned: set<Pair>, l: FollowLink, es: seq<Event<Action>>, pair: Pair)
    requires LinkOk(l) && pair !in banned && SamePair(l.sender, Replay(HostApply(banned), l), pair)
    ensures var n := RunLink(UserAct(true), HostApply(banned), l, es);
            LinkOk(n) && SamePair(n.sender, Replay(HostApply(banned), n), pair)
    decreases es
  {
    if es != [] {
      StepReplay(UserAct(true), HostApply(banned), l, es[0]);
      PairConverges(banned, LinkStep(UserAct(true), HostApply(banned), l, es[0]), es[1..], pair);
    }
  }

  /** Both tables list the same pairs, leaving out the banned ones. */
  ghost predicate SameFollowers(a: Rows, b: Rows, banned: set<Pair>) {
    forall pair :: pair !in banned ==> SamePair(a, b, pair)
  }

  /** So the whole tables converge. */
  lemma FollowersConverge(banned: set<Pair>, l: FollowLink, es: seq<Event<Action>>)
    requires LinkOk(l) && SameFollowers(l.sender, Replay(HostApply(banned), l), banned)
    ensures var n := RunLink(UserAct(true), HostApply(banned), l, es);
            LinkOk(n) && SameFollowers(n.sender, Replay(HostApply(banned), n), banned)
  {
    var n := RunLink(UserAct(true), HostApply(banned), l, es);
    LinkStaysOk(banned, l, es);
    forall pair | pair !in banned
      ensures SamePair(n.sender, Replay(HostApply(banned), n), pair)
    {
      assert SamePair(l.sender, Replay(HostApply(banned), l), pair);
      PairConverges(banned, l, es, pair);
    }
  }

  /** Once the channel is drained both instances list the same followers. */
  lemma FollowersAgree(banned: set<Pair>, start: FollowLink, es: seq<Event<Action>>)
    requires LinkOk(start) && SameFollowers(start.sender, Replay(HostApply(banned), start), banned)
    requires var n := RunLink(UserAct(true), HostApply(banned), start, es); n.next == |n.sent|
    ensures var n := RunLink(UserAct(true), HostApply(banned), start, es); SameFollowers(n.sender, n.receiver, banned)
  {
    FollowersConverge(banned, start, es);
    DrainedReplay(banned, RunLink(UserAct(true), HostApply(banned), start, es));
  }

  lemma {:induction false} LinkStaysOk(banned: set<Pair>, l: FollowLink, es: seq<Event<Action>>)
    requires LinkOk(l)
    ensures LinkOk(RunLink(UserAct(true), HostApply(banned), l, es))
    decreases es
  {
    if es != [] {
      StepReplay(UserAct(true), HostApply(banned), l, es[0]);
      LinkStaysOk(banned, LinkStep(UserAct(true), HostApply(banned), l, es[0]), es[1..]);
    }
  }

  lemma DrainedReplay(banned: set<Pair>, l: FollowLink)
    requires LinkOk(l)
    ensures l.next == |l.sent| ==> Replay(HostApply(banned), l) == l.receiver
  {
    assert l.next == |l.sent| ==> l.sent[l.next..] == [];
  }

  // ---------- when the two tables can part ----------

  ghost predicate AgreesWhenDrained(admitted: bool, banned: set<Pair>, l: FollowLink, es: seq<Event<Action>>,
                                    pair: Pair) {
    var n := RunLink(UserAct(admitted), HostApply(banned), l, es);
    n.next == |n.sent| ==> SamePair(n.sender, n.receiver, pair)
  }

  /** Whatever is under way at its start, every run that starts in agreement on the pair ends in it. */
  ghost predicate AlwaysAgrees(admitted: bool, banned: set<Pair>, pair: Pair) {
    forall l: FollowLink, es: seq<Event<Action>> ::
      LinkOk(l) && SamePair(l.sender, Replay(HostApply(banned), l), pair) ==>
        AgreesWhenDrained(admitted, banned, l, es, pair)
  }

  /** The tables agree on a pair in all runs exactly when it is not banned and the inbox may be sent to. */
  lemma FollowersAgreeIff(admitted: bool, banned: set<Pair>, pair: Pair)
    ensures AlwaysAgrees(admitted, banned, pair) <==> admitted && pair !in banned
  {
    if admitted && pair !in banned {
      forall l: FollowLink, es: seq<Event<Action>> | LinkOk(l) && SamePair(l.sender, Replay(HostApply(banned), l), pair)
        ensures AgreesWhenDrained(admitted, banned, l, es, pair)
      {
        PairConverges(banned, l, es, pair);
        DrainedReplay(banned, RunLink(UserAct(true), HostApply(banned), l, es));
      }
    } else if admitted {
      BanBreaksAgreement(banned, pair);
    } else {
      SilenceBreaksAgreement(banned, pair);
    }
  }

  /** A ban is not told to the user's instance: its Undo is refused as well, and the two tables part. */
  lemma BanBreaksAgreement(banned: set<Pair>, pair: Pair)
    requires pair in banned
    ensures var l: FollowLink := Link(map[pair := true], [], map[pair := false], {}, 0);
            && LinkOk(l) && SamePair(l.sender, Replay(HostApply(banned), l), pair)
            && !AgreesWhenDrained(true, banned, l, [Act(Unsubscribe(pair)), Deliver(0)], pair)
  {
    var l: FollowLink := Link(map[pair := true], [], map[pair := false], {}, 0);
    var es: seq<Event<Action>> := [Act(Unsubscribe(pair)), Deliver(0)];
    var l1 := LinkStep(UserAct(true), HostApply(banned), l, es[0]);
    assert l1.sent == [UndoFollowMessage(pair)];
    var l2 := LinkStep(UserAct(true), HostApply(banned), l1, es[1]);
    assert es[1..][1..] == [];
    assert RunLink(UserAct(true), HostApply(banned), l1, es[1..]) == l2;
    DrainedReplay(banned, l);
  }

  /** A Follow that is not sent leaves a row on one side only. */
  lemma SilenceBreaksAgreement(banned: set<Pair>, pair: Pair)
    ensures var l: FollowLink := Link(map[], [], map[], {}, 0);
            && LinkOk(l) && SamePair(l.sender, Replay(HostApply(banned), l), pair)
            && !AgreesWhenDrained(false, banned, l, [Act(Subscribe(pair))], pair)
  {
    var l: FollowLink := Link(map[], [], map[], {}, 0);
    var es: seq<Event<Action>> := [Act(Subscribe(pair))];
    var l1 := LinkStep(UserAct(false), HostApply(banned), l, es[0]);
    assert l1.sender == map[pair := true] && l1.sent == [];
    assert RunLink(UserAct(false), HostApply(banned), l1, es[1..]) == l1;
    DrainedReplay(banned, l);
  }

  /** Without a new subscription the pair stays out, however many Accepts arrive late. */
  lemma {:induction false} LateAcceptIsHarmless(admitted: bool, rows: Rows, pair: Pair, actions: seq<Action>)
    requires pair !in rows && Subscribe(pair) !in actions
    ensures pair !in Acted(admitted, rows, actions)
    decreases actions
  {
    if actions != [] {
      LateAcceptIsHarmless(admitted, UserAct(admitted)(rows, actions[0]).0, pair, actions[1..]);
    }
  }

  function Acted(admitted: bool, rows: Rows, actions: seq<Action>): Rows
    decreases actions
  {
    if actions == [] then rows else Acted(admitted, UserAct(admitted)(rows, actions[0]).0, actions[1..])
  }
}

/**
 Handing a community over: `TransferCommunity` (lemmy_api/src/community.rs) rewrites the moderator rows so
 that the new creator comes first, because the order of the rows is all that another instance gets to
 see (lemmy_apub/src/objects/community.rs, lemmy_apub/src/fetcher.rs).
 */
module Moderators {
  import opened Wrappers
  import opened Sequences

  type CommunityId = int
  type UserId = int

  datatype Moderator = Moderator(community: CommunityId, user: UserId, published: int)

  type Rows = seq<Moderator>

  /** `order by published`; rows of the same time stay as they are. */
  function Ordered(rows: Rows): Rows {
    if rows == [] then [] else Placed(rows[0], Ordered(rows[1..]))
  }

  function Placed(r: Moderator, rows: Rows): Rows {
    if rows == [] || r.published <= rows[0].published then [r] + rows else [rows[0]] + Placed(r, rows[1..])
  }

  function ForCommunity(rows: Rows, community: CommunityId): Rows {
    Ordered(Of(rows, community))
  }

  function In(community: CommunityId): Moderator -> bool {
    (r: Moderator) => r.community == community
  }

  function NotIn(community: CommunityId): Moderator -> bool {
    (r: Moderator) => r.community != community
  }

  function Of(rows: Rows, community: CommunityId): Rows {
    Filter(rows, In(community))
  }

  /** What `delete_for_community` leaves. */
  function NotOf(rows: Rows, community: CommunityId): Rows {
    Filter(rows, NotIn(community))
  }

  function Users(rows: Rows): seq<UserId> {
    seq(|rows|, i requires 0 <= i < |rows| => rows[i].user)
  }

  /** Unique by community and user. */
  ghost predicate RowsOk(rows: Rows) {
    forall i, j :: 0 <= i < j < |rows| ==> rows[i].community != rows[j].community || rows[i].user != rows[j].user
  }

  predicate Has(rows: Rows, community: CommunityId, user: UserId) {
    exists r :: r in rows && r.community == community && r.user == user
  }

  /** The first of the list that has the user comes to the front. */
  function MovedToFront(users: seq<UserId>, user: UserId): seq<UserId>
    requires user in users
  {
    MovedFrom(users, FirstIndex(users, user))
  }

  /** `remove(i)`, then `insert(0, ..)`. */
  function MovedFrom(users: seq<UserId>, i: nat): seq<UserId>
    requires i < |users|
  {
    [users[i]] + (users[..i] + users[i + 1..])
  }

  /** The rows that joining the users in this order makes, `times(i)` being the clock at the i-th insert. */
  function Joined(community: CommunityId, users: seq<UserId>, times: nat -> int): Rows {
    seq(|users|, i requires 0 <= i < |users| => Moderator(community, users[i], times(i)))
  }

  ghost predicate Increasing(times: nat -> int) {
    forall i: nat, j: nat :: i < j ==> times(i) < times(j)
  }

  datatype TransferError = NoSuchCommunity | NoSiteCreator | NotAnAdmin | CouldNotUpdate | NotAModerator

  class Communities {
    /** The ids of the stored users, which the creator column refers to. */
    var users: set<UserId>
    /** The creator column of the communities. */
    var creators: map<CommunityId, UserId>
    var moderators: Rows

    constructor ()
      ensures users == {} && creators == map[] && moderators == []
    {
      users, creators, moderators := {}, map[], [];
    }

    method Join(community: CommunityId, user: UserId, now: int) returns (ok: bool)
      modifies this`moderators
      ensures ok == !Has(old(moderators), community, user)
      ensures moderators == old(moderators) + if ok then [Moderator(community, user, now)] else []
    {
      ok := !Has(moderators, community, user);
      if ok {
        moderators := moderators + [Moderator(community, user, now)];
      }
    }

    /** Joins users in order and stops at the first one who is a moderator already. */
    method JoinAll(community: CommunityId, users: seq<UserId>, times: nat -> int) returns (ok: bool)
      modifies this`moderators
      ensures ok <==> NoDuplicates(users) && forall u :: u in users ==> !Has(old(moderators), community, u)
      ensures ok ==> moderators == old(moderators) + Joined(community, users, times)
      ensures !ok ==>
                exists n :: 0 <= n < |users| && moderators == old(moderators) + Joined(community, users[..n], times)
    {
      for i := 0 to |users|
        invariant moderators == old(moderators) + Joined(community, users[..i], times)
        invariant NoDuplicates(users[..i]) && forall u :: u in users[..i] ==> !Has(old(moderators), community, u)
      {
        JoinsIff(old(moderators), community, users[..i], times, users[i]);
        assert users[..i + 1] == users[..i] + [users[i]];
        assert Joined(community, users[..i + 1], times) == Joined(community, users[..i], times)
          + [Moderator(community, users[i], times(i))];
        ok := Join(community, users[i], times(i));
        if !ok {
          if users[i] in users[..i] {
            var k :| 0 <= k < i && users[..i][k] == users[i];
            assert !NoDuplicates(users);
          }
          return;
        }
      }
      assert users[..|users|] == users;
      ok := true;
    }

    /** The creator column is already changed when the new creator turns out not to be a moderator. */
    method TransferCommunity(caller: UserId, community: CommunityId, newCreator: UserId, admins: seq<UserId>,
                             siteCreator: UserId, times: nat -> int)
      returns (r: Result<(), TransferError>)
      requires RowsOk(moderators)
      modifies this`creators, this`moderators
      ensures r.Success? <==>
                && community in old(creators) && siteCreator in admins
                && (caller == old(creators)[community] || caller in admins)
                && newCreator in users && Has(old(moderators), community, newCreator)
      ensures r.Success? ==>
                var users := Users(ForCommunity(old(moderators), community));
                && creators == old(creators)[community := newCreator]
                && newCreator in users
                && moderators == NotOf(old(moderators), community)
                                 + Joined(community, MovedToFront(users, newCreator), times)
      ensures r.Success? && Increasing(times) ==>
                var users := Users(ForCommunity(old(moderators), community));
                && Users(ForCommunity(moderators, community)) == [newCreator] + Except(users, newCreator)
                && forall other :: other != community ==>
                     ForCommunity(moderators, other) == ForCommunity(old(moderators), other)
      ensures r.Failure? ==> moderators == old(moderators)
      ensures r.Failure? && r.error != NotAModerator ==> creators == old(creators)
      ensures r == Failure(NotAModerator) ==> newCreator in users && creators == old(creators)[community := newCreator]
    {
      if community !in creators {
        return Failure(NoSuchCommunity);
      }
      if siteCreator !in admins {
        return Failure(NoSiteCreator);
      }
      if caller != creators[community] && caller !in admins {
        return Failure(NotAnAdmin);
      }
      if newCreator !in users {
        return Failure(CouldNotUpdate);
      }
      creators := creators[community := newCreator];
      var communityMods := Users(ForCommunity(moderators, community));
      UsersOfCommunity(moderators, community);
      if newCreator !in communityMods {
        return Failure(NotAModerator);
      }
      communityMods := MovedToFront(communityMods, newCreator);
      MovedKeepsDistinct(Users(ForCommunity(moderators, community)), newCreator);
      moderators := NotOf(moderators, community);
      var joined := JoinAll(community, communityMods, times);
      if Increasing(times) {
        TransferReorders(old(moderators), community, newCreator, times);
      }
      forall other | other != community
        ensures ForCommunity(moderators, other) == ForCommunity(old(moderators), other)
      {
        OthersKeepTheirModerators(old(moderators), community, communityMods, times, other);
      }
      r := Success(());
    }

    /**
     What `fetch_remote_community` does with the moderators of a community it has just learned. The row of
     the community stays even when a moderator is listed twice and the joining stops.
     */
    method ImportCommunity(community: CommunityId, attributedTo: seq<string>, userOf: string -> UserId,
                           times: nat -> int) returns (ok: bool)
      requires community !in creators
      modifies this`creators, this`moderators
      ensures attributedTo == [] ==> !ok && creators == old(creators) && moderators == old(moderators)
      ensures attributedTo != [] ==> creators == old(creators)[community := userOf(attributedTo[0])]
      ensures ok <==> CanImport(old(moderators), community, attributedTo, userOf)
      ensures ok ==> moderators == old(moderators) + Joined(community, Resolved(attributedTo, userOf), times)
    {
      if attributedTo == [] {
        return false;
      }
      creators := creators[community := userOf(attributedTo[0])];
      ok := JoinAll(community, Resolved(attributedTo, userOf), times);
    }
  }

  /** Nobody is attributed twice, or is a moderator already. */
  ghost predicate CanImport(rows: Rows, community: CommunityId, attributedTo: seq<string>, userOf: string -> UserId) {
    && attributedTo != [] && NoDuplicates(Resolved(attributedTo, userOf))
    && forall u :: u in Resolved(attributedTo, userOf) ==> !Has(rows, community, u)
  }

  function Resolved(attributedTo: seq<string>, userOf: string -> UserId): seq<UserId> {
    seq(|attributedTo|, i requires 0 <= i < |attributedTo| => userOf(attributedTo[i]))
  }

  /** The attributed-to list of the exported Group. */
  function Exported(rows: Rows, community: CommunityId, actorOf: UserId -> string): seq<string> {
    var users := Users(ForCommunity(rows, community));
    seq(|users|, i requires 0 <= i < |users| => actorOf(users[i]))
  }

  // ---------- order by ----------

  ghost predicate Ascending(rows: Rows) {
    forall i, j :: 0 <= i < j < |rows| ==> rows[i].published <= rows[j].published
  }

  lemma AscendingFront(r: Moderator, rows: Rows)
    requires Ascending(rows) && forall i :: 0 <= i < |rows| ==> r.published <= rows[i].published
    ensures Ascending([r] + rows)
  {
  }

  lemma {:induction false} PlacedIsAscending(r: Moderator, rows: Rows)
    requires Ascending(rows)
    ensures Ascending(Placed(r, rows)) && multiset(Placed(r, rows)) == multiset{r} + multiset(rows)
  {
    if rows != [] {
      assert rows == [rows[0]] + rows[1..];
      if r.published > rows[0].published {
        PlacedIsAscending(r, rows[1..]);
        var rest := Placed(r, rows[1..]);
        forall i | 0 <= i < |rest|
          ensures rows[0].published <= rest[i].published
        {
          assert rest[i] in multiset(rest);
        }
        AscendingFront(rows[0], rest);
      } else {
        AscendingFront(r, rows);
      }
    }
  }

  /** The listing is the stored rows in ascending order of time. */
  lemma {:induction false} OrderedIsAscending(rows: Rows)
    ensures Ascending(Ordered(rows)) && multiset(Ordered(rows)) == multiset(rows)
  {
    if rows != [] {
      OrderedIsAscending(rows[1..]);
      PlacedIsAscending(rows[0], Ordered(rows[1..]));
      assert rows == [rows[0]] + rows[1..];
    }
  }

  lemma {:induction false} OrderedOfAscending(rows: Rows)
    requires Ascending(rows)
    ensures Ordered(rows) == rows
  {
    if rows != [] {
      OrderedOfAscending(rows[1..]);
      assert rows == [rows[0]] + rows[1..];
    }
  }

  // ---------- the users of a listing ----------

  /** After joining some users, another one can join unless a row was there or the user was among them. */
  lemma JoinsIff(rows: Rows, community: CommunityId, users: seq<UserId>, times: nat -> int, next: UserId)
    ensures Has(rows + Joined(community, users, times), community, next)
            <==> Has(rows, community, next) || next in users
  {
    var joined := Joined(community, users, times);
    if next in users {
      var k :| 0 <= k < |users| && users[k] == next;
      assert joined[k] in rows + joined;
    }
    if Has(rows, community, next) {
      var r :| r in rows && r.community == community && r.user == next;
      assert r in rows + joined;
    }
  }

  lemma {:induction false} OfKeepsRowsOk(rows: Rows, community: CommunityId)
    requires RowsOk(rows)
    ensures RowsOk(Of(rows, community))
  {
    if rows != [] {
      assert forall i :: 0 <= i < |rows[1..]| ==> rows[1..][i] == rows[i + 1];
      OfKeepsRowsOk(rows[1..], community);
      var rest := Of(rows[1..], community);
      assert forall i :: 0 <= i < |rest| ==> rest[i] in rest;
    }
  }

  lemma {:induction false} PlacedUsers(r: Moderator, rows: Rows)
    requires NoDuplicates(Users(rows)) && r.user !in Users(rows)
    ensures NoDuplicates(Users(Placed(r, rows)))
    ensures forall u :: u in Users(Placed(r, rows)) <==> u == r.user || u in Users(rows)
  {
    if rows == [] || r.published <= rows[0].published {
      assert Users([r] + rows) == [r.user] + Users(rows);
    } else {
      var tail := Users(rows[1..]);
      assert Users(rows) == [rows[0].user] + tail;
      assert forall i :: 0 <= i < |tail| ==> tail[i] == Users(rows)[i + 1];
      PlacedUsers(r, rows[1..]);
      var placed := Users(Placed(r, rows[1..]));
      forall k | 0 <= k < |tail|
        ensures tail[k] != rows[0].user
      {
        assert Users(rows)[k + 1] == tail[k] && Users(rows)[0] == rows[0].user;
      }
      assert rows[0].user !in placed;
      assert Users([rows[0]] + Placed(r, rows[1..])) == [rows[0].user] + placed;
    }
  }

  lemma {:induction false} OrderedUsers(rows: Rows, community: CommunityId)
    requires RowsOk(rows) && forall r :: r in rows ==> r.community == community
    ensures NoDuplicates(Users(Ordered(rows)))
    ensures forall u :: u in Users(Ordered(rows)) <==> Has(rows, community, u)
  {
    if rows != [] {
      assert forall i :: 0 <= i < |rows[1..]| ==> rows[1..][i] == rows[i + 1];
      OrderedUsers(rows[1..], community);
      assert rows[0] in rows;
      assert !Has(rows[1..], community, rows[0].user);
      PlacedUsers(rows[0], Ordered(rows[1..]));
      assert rows == [rows[0]] + rows[1..];
    }
  }

  /** The listing names every moderator of the community once. */
  lemma UsersOfCommunity(rows: Rows, community: CommunityId)
    requires RowsOk(rows)
    ensures var users := Users(ForCommunity(rows, community));
            NoDuplicates(users) && forall u :: u in users <==> Has(rows, community, u)
  {
    OfKeepsRowsOk(rows, community);
    OrderedUsers(Of(rows, community), community);
    forall u
      ensures Has(Of(rows, community), community, u) <==> Has(rows, community, u)
    {
      if Has(rows, community, u) {
        var r :| r in rows && r.community == community && r.user == u;
        assert r in Of(rows, community);
      }
    }
  }

  function Except(users: seq<UserId>, user: UserId): seq<UserId> {
    Filter(users, IsNot(user))
  }

  function IsNot(user: UserId): UserId -> bool {
    (u: UserId) => u != user
  }

  /** Moving to the front loses nobody, puts the user first, and keeps the order of the others. */
  lemma MovedKeepsDistinct(users: seq<UserId>, user: UserId)
    requires NoDuplicates(users) && user in users
    ensures var moved := MovedToFront(users, user);
            && NoDuplicates(moved) && multiset(moved) == multiset(users)
            && moved[0] == user
            && moved[1..] == Except(users, user)
  {
    MovedFromKeepsDistinct(users, FirstIndex(users, user));
    MovedFromKeepsOrder(users, FirstIndex(users, user));
  }

  lemma MovedFromKeepsDistinct(users: seq<UserId>, i: nat)
    requires NoDuplicates(users) && i < |users|
    ensures var moved := MovedFrom(users, i);
            NoDuplicates(moved) && multiset(moved) == multiset(users) && moved[0] == users[i]
  {
    var before, user, after := users[..i], users[i], users[i + 1..];
    assert users == before + [user] + after;
    TakenOut(before, user, after);
    FrontKeepsDistinct(before + after, user);
  }

  lemma MovedFromKeepsOrder(users: seq<UserId>, i: nat)
    requires NoDuplicates(users) && i < |users|
    ensures MovedFrom(users, i)[1..] == Except(users, users[i])
  {
    var before, user, after := users[..i], users[i], users[i + 1..];
    var others := before + after;
    assert users == before + [user] + after;
    TakenOut(before, user, after);
    ExceptTakesOut(users, before, user, after);
    assert ([user] + others)[1..] == others;
  }

  lemma ExceptTakesOut(users: seq<UserId>, before: seq<UserId>, user: UserId, after: seq<UserId>)
    requires users == before + [user] + after && user !in before && user !in after
    ensures Except(users, user) == before + after
  {
    FilterAppend(before + [user], after, IsNot(user));
    FilterAppend(before, [user], IsNot(user));
    FilterAllOrNone(before, IsNot(user));
    FilterAllOrNone([user], IsNot(user));
    FilterAllOrNone(after, IsNot(user));
  }

  lemma TakenOut(before: seq<UserId>, user: UserId, after: seq<UserId>)
    requires NoDuplicates(before + [user] + after)
    ensures user !in before && user !in after && NoDuplicates(before + after)
  {
    var users, i := before + [user] + after, |before|;
    forall j | 0 <= j < |before + after|
      ensures (before + after)[j] != user
    {
      assert users[i] == user && users[if j < i then j else j + 1] == (before + after)[j];
    }
    forall j, k | 0 <= j < k < |before + after|
      ensures (before + after)[j] != (before + after)[k]
    {
      var j', k' := if j < i then j else j + 1, if k < i then k else k + 1;
      assert users[j'] != users[k'];
    }
    assert forall u :: u in before || u in after ==> u in before + after;
  }

  lemma FrontKeepsDistinct(users: seq<UserId>, user: UserId)
    requires NoDuplicates(users) && user !in users
    ensures NoDuplicates([user] + users)
    ensures ([user] + users)[0] == user && ([user] + users)[1..] == users
  {
  }

  // ---------- the hand-over ----------

  /** Rows that were joined in order, and are the only ones of their community, are listed in that order. */
  lemma JoinedIsListed(rows: Rows, community: CommunityId, users: seq<UserId>, times: nat -> int)
    requires Increasing(times) && forall r :: r in rows ==> r.community != community
    ensures Users(ForCommunity(rows + Joined(community, users, times), community)) == users
  {
    var joined := Joined(community, users, times);
    JoinedAreAppended(rows, joined, community);
    OrderedOfAscending(joined);
    assert Users(joined) == users;
  }

  lemma JoinedAreAppended(rows: Rows, joined: Rows, community: CommunityId)
    requires forall r :: r in rows ==> r.community != community
    requires forall r :: r in joined ==> r.community == community
    ensures Of(rows + joined, community) == joined
  {
    FilterAppend(rows, joined, In(community));
    FilterAllOrNone(rows, In(community));
    FilterAllOrNone(joined, In(community));
    assert [] + joined == joined;
  }

  /**
   After a successful transfer the listing has the new creator first and everybody else in the old order.
   */
  lemma TransferReorders(rows: Rows, community: CommunityId, newCreator: UserId, times: nat -> int)
    requires RowsOk(rows) && Has(rows, community, newCreator) && Increasing(times)
    ensures var users := Users(ForCommunity(rows, community));
            newCreator in users
            && var after := NotOf(rows, community) + Joined(community, MovedToFront(users, newCreator), times);
               Users(ForCommunity(after, community)) == MovedToFront(users, newCreator)
               && MovedToFront(users, newCreator) == [newCreator] + Except(users, newCreator)
  {
    UsersOfCommunity(rows, community);
    var users := Users(ForCommunity(rows, community));
    var kept := NotOf(rows, community);
    var moved := MovedToFront(users, newCreator);
    JoinedIsListed(kept, community, moved, times);
    MovedKeepsDistinct(users, newCreator);
  }

  /** Joining and deleting rows of one community does not touch the listing of another. */
  lemma OthersKeepTheirModerators(rows: Rows, community: CommunityId, users: seq<UserId>, times: nat -> int,
                                  other: CommunityId)
    requires other != community
    ensures ForCommunity(NotOf(rows, community) + Joined(community, users, times), other) == ForCommunity(rows, other)
  {
    var joined := Joined(community, users, times);
    FilterAppend(NotOf(rows, community), joined, In(other));
    FilterAllOrNone(joined, In(other));
    FilterTwice(rows, NotIn(community), In(other));
    assert Of(rows, other) + [] == Of(rows, other);
  }

  /** The other instance finds different users for different moderators. */
  ghost predicate ToldApart(users: seq<UserId>, actorOf: UserId -> string, userOf: string -> UserId) {
    forall u, v :: u in users && v in users && userOf(actorOf(u)) == userOf(actorOf(v)) ==> u == v
  }

  /** Only then can the exported community be imported where it is new. */
  lemma ImportsIff(rows: Rows, community: CommunityId, actorOf: UserId -> string, userOf: string -> UserId,
                   there: Rows, newCommunity: CommunityId)
    requires NoDuplicates(Users(ForCommunity(rows, community))) && Users(ForCommunity(rows, community)) != []
    requires forall r :: r in there ==> r.community != newCommunity
    ensures CanImport(there, newCommunity, Exported(rows, community, actorOf), userOf)
            <==> ToldApart(Users(ForCommunity(rows, community)), actorOf, userOf)
  {
    var users := Users(ForCommunity(rows, community));
    var resolved := Resolved(Exported(rows, community, actorOf), userOf);
    assert forall i :: 0 <= i < |users| ==> resolved[i] == userOf(actorOf(users[i]));
    if ToldApart(users, actorOf, userOf) {
      forall i, j | 0 <= i < j < |resolved|
        ensures resolved[i] != resolved[j]
      {
        assert users[i] in users && users[j] in users && users[i] != users[j];
      }
    } else {
      var u, v :| u in users && v in users && userOf(actorOf(u)) == userOf(actorOf(v)) && u != v;
      var i, j := FirstIndex(users, u), FirstIndex(users, v);
      assert resolved[i] == resolved[j];
    }
  }

  /**
   The hand-over crosses instances: the transferred community can be imported where it is new, exactly when its
   moderators are told apart there. The import then makes the new creator its creator, and its moderators the same
   people in the same order.
   */
  lemma TransferIsFederated(rows: Rows, community: CommunityId, newCreator: UserId, times: nat -> int,
                            actorOf: UserId -> string, userOf: string -> UserId,
                            there: Rows, newCommunity: CommunityId, timesThere: nat -> int)
    requires RowsOk(rows) && Has(rows, community, newCreator) && Increasing(times) && Increasing(timesThere)
    requires forall r :: r in there ==> r.community != newCommunity
    ensures var users := Users(ForCommunity(rows, community));
            newCreator in users
            && var moved := MovedToFront(users, newCreator);
               var group := Exported(NotOf(rows, community) + Joined(community, moved, times), community, actorOf);
               var imported := there + Joined(newCommunity, Resolved(group, userOf), timesThere);
               && (CanImport(there, newCommunity, group, userOf) <==> ToldApart(users, actorOf, userOf))
               && group != []
               && userOf(group[0]) == userOf(actorOf(newCreator))
               && var listed := Users(ForCommunity(imported, newCommunity));
                  && |listed| == |users|
                  && forall i :: 0 <= i < |users| ==> listed[i] == userOf(actorOf(moved[i]))
  {
    TransferReorders(rows, community, newCreator, times);
    UsersOfCommunity(rows, community);
    var users := Users(ForCommunity(rows, community));
    var moved := MovedToFront(users, newCreator);
    var after := NotOf(rows, community) + Joined(community, moved, times);
    var group := Exported(after, community, actorOf);
    MovedKeepsDistinct(users, newCreator);
    SamePeople(users, moved, actorOf, userOf);
    ImportsIff(after, community, actorOf, userOf, there, newCommunity);
    JoinedIsListed(there, newCommunity, Resolved(group, userOf), timesThere);
  }

  lemma SamePeople(users: seq<UserId>, moved: seq<UserId>, actorOf: UserId -> string, userOf: string -> UserId)
    requires multiset(users) == multiset(moved)
    ensures ToldApart(users, actorOf, userOf) <==> ToldApart(moved, actorOf, userOf)
  {
    assert forall u :: (u in users <==> u in multiset(users)) && (u in moved <==> u in multiset(moved));
  }
}

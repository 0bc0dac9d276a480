/**
 The websocket rooms of lemmy_websocket/src/chat_server.rs and the handlers that change them.

 The class keeps the source's maps from a room to its set of connections. Its ghost fields are the
 simple picture they stand for: every connection has at most one location (a post or a community),
 at most one joined user and at most one moderated community. `Valid` says that the maps are exactly
 the inverse images of those partial functions. A session's actor address is modelled by its mailbox.
 */
module ChatServer {
  import opened Wrappers

  type ConnectionId = nat
  type PostId = int
  type CommunityId = int
  type UserId = int
  type UserOperation = string

  datatype Location = InPost(post: PostId) | InCommunity(community: CommunityId)

  datatype CommentView = CommentView(id: int, postId: PostId, communityId: CommunityId, userId: Option<UserId>,
                                     myVote: Option<int>, content: string)
  datatype CommentResponse = CommentResponse(comment: CommentView, recipientIds: seq<UserId>)
  datatype PostView = PostView(id: PostId, communityId: CommunityId, userId: Option<UserId>, myVote: Option<int>,
                               name: string)

  datatype Message =
    | CommentMessage(op: UserOperation, response: CommentResponse)
    | PostMessage(op: UserOperation, post: PostView)

  type Rooms<K> = map<K, set<ConnectionId>>
  type Mailboxes = map<ConnectionId, seq<Message>>

  /** The rooms hold a connection exactly where the partial function puts it. */
  ghost predicate Inverse<K(!new)>(rooms: Rooms<K>, f: map<ConnectionId, K>) {
    forall k, c :: k in rooms && c in rooms[k] <==> c in f && f[c] == k
  }

  ghost predicate InverseLocation(postRooms: Rooms<PostId>, communityRooms: Rooms<CommunityId>,
                                  location: map<ConnectionId, Location>) {
    && (forall p, c ::
          p in postRooms && c in postRooms[p] <==> c in location && location[c] == InPost(p))
    && (forall m, c ::
          m in communityRooms && c in communityRooms[m] <==> c in location && location[c] == InCommunity(m))
  }

  /** What the loops over `values_mut()` compute. */
  function Without<K>(rooms: Rooms<K>, id: ConnectionId): Rooms<K> {
    map k | k in rooms :: rooms[k] - {id}
  }

  function With<K>(rooms: Rooms<K>, key: K, id: ConnectionId): Rooms<K> {
    rooms[key := (if key in rooms then rooms[key] else {}) + {id}]
  }

  method Leave<K(==)>(rooms: Rooms<K>, id: ConnectionId) returns (left: Rooms<K>)
    ensures left == Without(rooms, id)
  {
    left := rooms;
    var todo := rooms.Keys;
    while todo != {}
      invariant todo <= rooms.Keys && left.Keys == rooms.Keys
      invariant forall k :: k in rooms ==> left[k] == if k in todo then rooms[k] else rooms[k] - {id}
      decreases todo
    {
      var k :| k in todo;
      left := left[k := left[k] - {id}];
      todo := todo - {k};
    }
  }

  method Enter<K(==)>(rooms: Rooms<K>, key: K, id: ConnectionId) returns (entered: Rooms<K>)
    ensures entered == With(rooms, key, id)
  {
    entered := rooms;
    if key !in entered {
      entered := entered[key := {}];
    }
    entered := entered[key := entered[key] + {id}];
  }

  lemma LeaveKeepsInverse<K(!new)>(rooms: Rooms<K>, f: map<ConnectionId, K>, id: ConnectionId)
    requires Inverse(rooms, f)
    ensures Inverse(Without(rooms, id), f - {id})
  {
  }

  lemma EnterKeepsInverse<K(!new)>(rooms: Rooms<K>, f: map<ConnectionId, K>, key: K, id: ConnectionId)
    requires Inverse(rooms, f) && id !in f
    ensures Inverse(With(rooms, key, id), f[id := key])
  {
  }

  lemma LeaveKeepsLocation(postRooms: Rooms<PostId>, communityRooms: Rooms<CommunityId>,
                           location: map<ConnectionId, Location>, id: ConnectionId)
    requires InverseLocation(postRooms, communityRooms, location)
    ensures InverseLocation(Without(postRooms, id), Without(communityRooms, id), location - {id})
  {
  }

  lemma EnterKeepsLocation(postRooms: Rooms<PostId>, communityRooms: Rooms<CommunityId>,
                           location: map<ConnectionId, Location>, place: Location, id: ConnectionId)
    requires InverseLocation(postRooms, communityRooms, location) && id !in location
    ensures place.InPost? ==> InverseLocation(With(postRooms, place.post, id), communityRooms, location[id := place])
    ensures place.InCommunity? ==> InverseLocation(postRooms, With(communityRooms, place.community, id),
                                                   location[id := place])
  {
  }

  /** Every mailbox gains the message once if its connection is in `to`, and nothing else. */
  ghost predicate Delivered(before: Mailboxes, to: set<ConnectionId>, message: Message, after: Mailboxes) {
    && after.Keys == before.Keys
    && forall c :: c in before ==> after[c] == before[c] + Copies(message, if c in to then 1 else 0)
  }

  lemma DeliveredInFields(before: Mailboxes, to: set<ConnectionId>, message: Message, after: Mailboxes)
    requires Delivered(before, to, message, after)
    ensures forall c :: c in before ==> after[c] == before[c] + if c in to then [message] else []
  {
    assert Copies(message, 1) == [message] && Copies(message, 0) == [];
  }

  lemma OneMoreDelivered(before: Mailboxes, mid: Mailboxes, to: set<ConnectionId>, message: Message, id: ConnectionId)
    requires Delivered(before, to, message, mid) && id !in to && id in mid
    ensures Delivered(before, to + {id}, message, mid[id := mid[id] + [message]])
  {
  }

  class ChatServer {
    var sessions: map<ConnectionId, string>
    var postRooms: Rooms<PostId>
    var communityRooms: Rooms<CommunityId>
    var modRooms: Rooms<CommunityId>
    var userRooms: Rooms<UserId>
    var mailboxes: Mailboxes

    ghost var location: map<ConnectionId, Location>
    ghost var userOf: map<ConnectionId, UserId>
    ghost var modOf: map<ConnectionId, CommunityId>

    ghost predicate Valid()
      reads this
    {
      && InverseLocation(postRooms, communityRooms, location)
      && Inverse(userRooms, userOf)
      && Inverse(modRooms, modOf)
      && sessions.Keys <= mailboxes.Keys
    }

    constructor ()
      ensures Valid()
      ensures sessions == map[] && location == map[] && userOf == map[] && modOf == map[]
    {
      sessions, mailboxes := map[], map[];
      postRooms, communityRooms, modRooms, userRooms := map[], map[], map[], map[];
      location, userOf, modOf := map[], map[], map[];
    }

    /** The id is drawn at random by the caller's generator. */
    method Connect(id: ConnectionId, ip: string)
      requires Valid()
      modifies this`sessions, this`mailboxes
      ensures Valid()
      ensures sessions == old(sessions)[id := ip] && mailboxes == old(mailboxes)[id := []]
    {
      sessions := sessions[id := ip];
      mailboxes := mailboxes[id := []];
    }

    /** Leaves every kind of room except the moderator rooms, and only if the session still existed. */
    method Disconnect(id: ConnectionId)
      requires Valid()
      modifies this
      ensures Valid()
      ensures sessions == old(sessions) - {id}
      ensures location == if id in old(sessions) then old(location) - {id} else old(location)
      ensures userOf == if id in old(sessions) then old(userOf) - {id} else old(userOf)
      ensures modOf == old(modOf) && mailboxes == old(mailboxes)
    {
      if id in sessions {
        sessions := sessions - {id};
        userRooms := Leave(userRooms, id);
        postRooms := Leave(postRooms, id);
        communityRooms := Leave(communityRooms, id);
        LeaveKeepsInverse(old(userRooms), userOf, id);
        LeaveKeepsLocation(old(postRooms), old(communityRooms), location, id);
        location, userOf := location - {id}, userOf - {id};
      }
    }

    method JoinCommunityRoom(communityId: CommunityId, id: ConnectionId)
      requires Valid()
      modifies this`postRooms, this`communityRooms, this`location
      ensures Valid()
      ensures location == old(location)[id := InCommunity(communityId)]
    {
      communityRooms := Leave(communityRooms, id);
      postRooms := Leave(postRooms, id);
      communityRooms := Enter(communityRooms, communityId, id);
      LeaveKeepsLocation(old(postRooms), old(communityRooms), location, id);
      EnterKeepsLocation(Without(old(postRooms), id), Without(old(communityRooms), id), location - {id},
                         InCommunity(communityId), id);
      assert (location - {id})[id := InCommunity(communityId)] == location[id := InCommunity(communityId)];
      location := location[id := InCommunity(communityId)];
    }

    method JoinModRoom(communityId: CommunityId, id: ConnectionId)
      requires Valid()
      modifies this`modRooms, this`modOf
      ensures Valid()
      ensures modOf == old(modOf)[id := communityId]
    {
      modRooms := Leave(modRooms, id);
      modRooms := Enter(modRooms, communityId, id);
      LeaveKeepsInverse(old(modRooms), modOf, id);
      EnterKeepsInverse(Without(old(modRooms), id), modOf - {id}, communityId, id);
      assert (modOf - {id})[id := communityId] == modOf[id := communityId];
      modOf := modOf[id := communityId];
    }

    method JoinPostRoom(postId: PostId, id: ConnectionId)
      requires Valid()
      modifies this`postRooms, this`communityRooms, this`location
      ensures Valid()
      ensures location == old(location)[id := InPost(postId)]
    {
      postRooms := Leave(postRooms, id);
      communityRooms := Leave(communityRooms, id);
      postRooms := Enter(postRooms, postId, id);
      LeaveKeepsLocation(old(postRooms), old(communityRooms), location, id);
      EnterKeepsLocation(Without(old(postRooms), id), Without(old(communityRooms), id), location - {id}, InPost(postId),
                         id);
      assert (location - {id})[id := InPost(postId)] == location[id := InPost(postId)];
      location := location[id := InPost(postId)];
    }

    method JoinUserRoom(userId: UserId, id: ConnectionId)
      requires Valid()
      modifies this`userRooms, this`userOf
      ensures Valid()
      ensures userOf == old(userOf)[id := userId]
    {
      userRooms := Leave(userRooms, id);
      userRooms := Enter(userRooms, userId, id);
      LeaveKeepsInverse(old(userRooms), userOf, id);
      EnterKeepsInverse(Without(old(userRooms), id), userOf - {id}, userId, id);
      assert (userOf - {id})[id := userId] == userOf[id := userId];
      userOf := userOf[id := userId];
    }

    method GetPostUsersOnline(postId: PostId) returns (n: nat)
      requires Valid()
      ensures n == |set c | c in location && location[c] == InPost(postId)|
    {
      ghost var there := set c | c in location && location[c] == InPost(postId);
      if postId in postRooms {
        assert postRooms[postId] == there;
        n := |postRooms[postId]|;
      } else {
        assert there == {};
        n := 0;
      }
    }

    method GetCommunityUsersOnline(communityId: CommunityId) returns (n: nat)
      requires Valid()
      ensures n == |set c | c in location && location[c] == InCommunity(communityId)|
    {
      ghost var there := set c | c in location && location[c] == InCommunity(communityId);
      if communityId in communityRooms {
        assert communityRooms[communityId] == there;
        n := |communityRooms[communityId]|;
      } else {
        assert there == {};
        n := 0;
      }
    }

    // ---------- sending ----------

    /** Nothing happens for a connection without a session. */
    method Sendit(message: Message, id: ConnectionId)
      requires Valid()
      modifies this`mailboxes
      ensures mailboxes == if id in sessions then old(mailboxes)[id := old(mailboxes)[id] + [message]]
              else old(mailboxes)
    {
      if id in sessions {
        mailboxes := mailboxes[id := mailboxes[id] + [message]];
      }
    }

    /** The loop shared by the room messages: every member but the sender. */
    method SendAll(room: set<ConnectionId>, message: Message, websocketId: Option<ConnectionId>)
      requires Valid()
      modifies this`mailboxes
      ensures Valid()
      ensures Delivered(old(mailboxes), (set c | c in room && Reaches(sessions.Keys, websocketId, c)), message,
                        mailboxes)
    {
      ghost var to := set c | c in room && Reaches(sessions.Keys, websocketId, c);
      var todo := room;
      while todo != {}
        invariant todo <= room && Delivered(old(mailboxes), to - todo, message, mailboxes)
        decreases todo
      {
        var id :| id in todo;
        assert to - todo == to - (todo - {id}) - {id};
        todo := todo - {id};
        if websocketId == Some(id) {
          continue;
        }
        ghost var mid := mailboxes;
        Sendit(message, id);
        if id in sessions {
          OneMoreDelivered(old(mailboxes), mid, to - todo - {id}, message, id);
          assert to - todo - {id} + {id} == to - todo;
        }
      }
      assert to - todo == to;
    }

    method SendPostRoomMessage(message: Message, postId: PostId, websocketId: Option<ConnectionId>)
      requires Valid()
      modifies this`mailboxes
      ensures Valid()
      ensures Delivered(old(mailboxes), Audience(location, InPost(postId), sessions.Keys, websocketId), message,
                        mailboxes)
      ensures forall c :: c in mailboxes ==>
                (mailboxes[c] == old(mailboxes)[c]
                 + if c in sessions && websocketId != Some(c) && c in location && location[c] == InPost(postId)
                   then [message] else [])
    {
      if postId in postRooms {
        SendAll(postRooms[postId], message, websocketId);
        assert (set c | c in postRooms[postId] && Reaches(sessions.Keys, websocketId, c))
            == Audience(location, InPost(postId), sessions.Keys, websocketId);
      }
      DeliveredInFields(old(mailboxes), Audience(location, InPost(postId), sessions.Keys, websocketId), message,
                        mailboxes);
    }

    method SendCommunityRoomMessage(message: Message, communityId: CommunityId, websocketId: Option<ConnectionId>)
      requires Valid()
      modifies this`mailboxes
      ensures Valid()
      ensures Delivered(old(mailboxes), Audience(location, InCommunity(communityId), sessions.Keys, websocketId),
                        message, mailboxes)
      ensures forall c :: c in mailboxes ==>
                (mailboxes[c] == old(mailboxes)[c]
                 + if c in sessions && websocketId != Some(c) && Find(location, c) == Some(InCommunity(communityId))
                   then [message] else [])
    {
      if communityId in communityRooms {
        SendAll(communityRooms[communityId], message, websocketId);
        assert (set c | c in communityRooms[communityId] && Reaches(sessions.Keys, websocketId, c))
            == Audience(location, InCommunity(communityId), sessions.Keys, websocketId);
      }
      DeliveredInFields(old(mailboxes), Audience(location, InCommunity(communityId), sessions.Keys, websocketId),
                        message, mailboxes);
    }

    method SendUserRoomMessage(message: Message, recipientId: UserId, websocketId: Option<ConnectionId>)
      requires Valid()
      modifies this`mailboxes
      ensures Valid()
      ensures Delivered(old(mailboxes), Audience(userOf, recipientId, sessions.Keys, websocketId), message, mailboxes)
      ensures forall c :: c in mailboxes ==>
                (mailboxes[c] == old(mailboxes)[c]
                 + if c in sessions && websocketId != Some(c) && c in userOf && userOf[c] == recipientId
                   then [message] else [])
    {
      if recipientId in userRooms {
        SendAll(userRooms[recipientId], message, websocketId);
        assert (set c | c in userRooms[recipientId] && Reaches(sessions.Keys, websocketId, c))
            == Audience(userOf, recipientId, sessions.Keys, websocketId);
      }
      DeliveredInFields(old(mailboxes), Audience(userOf, recipientId, sessions.Keys, websocketId), message, mailboxes);
    }

    /** The loop over the recipients: each mention of the joined user's id brings one message. */
    method SendToRecipients(message: Message, recipientIds: seq<UserId>, websocketId: Option<ConnectionId>)
      requires Valid()
      modifies this`mailboxes
      ensures Valid()
      ensures Named(old(mailboxes), userOf, sessions.Keys, websocketId, message, recipientIds, mailboxes)
    {
      for i := 0 to |recipientIds|
        invariant Valid()
        invariant Named(old(mailboxes), userOf, sessions.Keys, websocketId, message, recipientIds[..i], mailboxes)
      {
        ghost var mid := mailboxes;
        SendUserRoomMessage(message, recipientIds[i], websocketId);
        NameOneMore(old(mailboxes), mid, mailboxes, userOf, sessions.Keys, websocketId, message, recipientIds[..i],
                    recipientIds[i]);
        assert recipientIds[..i + 1] == recipientIds[..i] + [recipientIds[i]];
      }
      assert recipientIds[..|recipientIds|] == recipientIds;
    }

    /** Every mailbox gains exactly the copies that `CommentCopies` lists, in that order. */
    method SendComment(op: UserOperation, comment: CommentResponse, websocketId: Option<ConnectionId>)
      requires Valid()
      modifies this`mailboxes
      ensures Valid() && mailboxes.Keys == old(mailboxes).Keys
      ensures forall c :: c in mailboxes ==>
                (mailboxes[c] == old(mailboxes)[c]
                 + CommentCopies(op, comment, Find(location, c), Find(userOf, c),
                                 Reaches(sessions.Keys, websocketId, c)))
      ensures forall c :: c in mailboxes ==>
                HearsComment(op, comment, c in sessions && websocketId != Some(c), Find(location, c), Find(userOf, c),
                             old(mailboxes)[c], mailboxes[c])
    {
      var replySent := CommentMessage(op, comment.(comment := comment.comment.(myVote := None, userId := None)));
      var postSent := replySent.(response := replySent.response.(recipientIds := []));
      assert replySent == ReplyCopy(op, comment) && postSent == PostRoomCopy(op, comment);

      ghost var m0 := mailboxes;
      SendPostRoomMessage(postSent, comment.comment.postId, websocketId);
      ghost var m1 := mailboxes;
      SendToRecipients(replySent, comment.recipientIds, websocketId);
      ghost var m2 := mailboxes;
      SendCommunityRoomMessage(postSent, 0, websocketId);
      ghost var m3 := mailboxes;
      SendCommunityRoomMessage(postSent, comment.comment.communityId, websocketId);
      CommentDelivered(op, comment, location, userOf, sessions.Keys, websocketId, m0, m1, m2, m3, mailboxes);
      CommentIsHeard(op, comment, location, userOf, sessions.Keys, websocketId, m0, mailboxes);
    }

    method SendPost(op: UserOperation, post: PostView, websocketId: Option<ConnectionId>)
      requires Valid()
      modifies this`mailboxes
      ensures Valid() && mailboxes.Keys == old(mailboxes).Keys
      ensures forall c :: c in mailboxes ==>
                (mailboxes[c] == old(mailboxes)[c]
                 + PostCopies(op, post, Find(location, c), Reaches(sessions.Keys, websocketId, c)))
      ensures forall c :: c in mailboxes ==>
                HearsPost(op, post, c in sessions && websocketId != Some(c), Find(location, c),
                          old(mailboxes)[c], mailboxes[c])
    {
      var postSent := PostMessage(op, post.(myVote := None, userId := None));
      ghost var m0 := mailboxes;
      SendCommunityRoomMessage(postSent, 0, websocketId);
      ghost var m1 := mailboxes;
      SendCommunityRoomMessage(postSent, post.communityId, websocketId);
      ghost var m2 := mailboxes;
      SendPostRoomMessage(postSent, post.id, websocketId);
      PostDelivered(op, post, postSent, location, sessions.Keys, websocketId, m0, m1, m2, mailboxes);
    }
  }

  predicate Reaches(live: set<ConnectionId>, websocketId: Option<ConnectionId>, c: ConnectionId) {
    c in live && websocketId != Some(c)
  }

  /** The live connections that the partial function puts at `place`, without the sender. */
  ghost function Audience<K>(f: map<ConnectionId, K>, place: K, live: set<ConnectionId>,
                             websocketId: Option<ConnectionId>): set<ConnectionId> {
    set c | c in f && f[c] == place && Reaches(live, websocketId, c)
  }

  ghost predicate Named(before: Mailboxes, userOf: map<ConnectionId, UserId>, live: set<ConnectionId>,
                        websocketId: Option<ConnectionId>, message: Message,
                        recipients: seq<UserId>, after: Mailboxes) {
    && after.Keys == before.Keys
    && forall c :: c in before ==>
         (after[c] == before[c]
          + Copies(message, if Reaches(live, websocketId, c) then Times(recipients, Find(userOf, c)) else 0))
  }

  /** The four rounds of a comment add up to `CommentCopies`. */
  lemma CommentDelivered(op: UserOperation, comment: CommentResponse, location: map<ConnectionId, Location>,
                         userOf: map<ConnectionId, UserId>, live: set<ConnectionId>, websocketId: Option<ConnectionId>,
                         m0: Mailboxes, m1: Mailboxes, m2: Mailboxes, m3: Mailboxes, m4: Mailboxes)
    requires Delivered(m0, Audience(location, InPost(comment.comment.postId), live, websocketId),
                       PostRoomCopy(op, comment), m1)
    requires Named(m1, userOf, live, websocketId, ReplyCopy(op, comment), comment.recipientIds, m2)
    requires Delivered(m2, Audience(location, InCommunity(0), live, websocketId), PostRoomCopy(op, comment), m3)
    requires Delivered(m3, Audience(location, InCommunity(comment.comment.communityId), live, websocketId),
                       PostRoomCopy(op, comment), m4)
    ensures m4.Keys == m0.Keys
    ensures forall c :: c in m0 ==>
              m4[c] == m0[c] + CommentCopies(op, comment, Find(location, c), Find(userOf, c),
                                             Reaches(live, websocketId, c))
  {
    forall c | c in m0
      ensures m4[c] == m0[c] + CommentCopies(op, comment, Find(location, c), Find(userOf, c),
                                             Reaches(live, websocketId, c))
    {
      CommentForOne(op, comment, Find(location, c), Find(userOf, c), Reaches(live, websocketId, c),
                    m0[c], m1[c], m2[c], m3[c], m4[c]);
    }
  }

  lemma CommentForOne(op: UserOperation, comment: CommentResponse, at: Option<Location>, user: Option<UserId>,
                      reached: bool, s0: seq<Message>, s1: seq<Message>, s2: seq<Message>, s3: seq<Message>,
                      s4: seq<Message>)
    requires var c, room := comment.comment, PostRoomCopy(op, comment);
             && s1 == s0 + Copies(room, if reached && at == Some(InPost(c.postId)) then 1 else 0)
             && s2 == s1 + Copies(ReplyCopy(op, comment), if reached then Times(comment.recipientIds, user) else 0)
             && s3 == s2 + Copies(room, if reached && at == Some(InCommunity(0)) then 1 else 0)
             && s4 == s3 + Copies(room, if reached && at == Some(InCommunity(c.communityId)) then 1 else 0)
    ensures s4 == s0 + CommentCopies(op, comment, at, user, reached)
  {
  }

  lemma PostDelivered(op: UserOperation, post: PostView, sent: Message, location: map<ConnectionId, Location>,
                      live: set<ConnectionId>, websocketId: Option<ConnectionId>,
                      m0: Mailboxes, m1: Mailboxes, m2: Mailboxes, m3: Mailboxes)
    requires sent == PostMessage(op, post.(myVote := None, userId := None))
    requires Delivered(m0, Audience(location, InCommunity(0), live, websocketId), sent, m1)
    requires Delivered(m1, Audience(location, InCommunity(post.communityId), live, websocketId), sent, m2)
    requires Delivered(m2, Audience(location, InPost(post.id), live, websocketId), sent, m3)
    ensures m3.Keys == m0.Keys
    ensures forall c :: c in m0 ==>
              m3[c] == m0[c] + PostCopies(op, post, Find(location, c), Reaches(live, websocketId, c))
    ensures forall c :: c in m0 ==>
              HearsPost(op, post, c in live && websocketId != Some(c), Find(location, c), m0[c], m3[c])
  {
    forall c | c in m0
      ensures m3[c] == m0[c] + PostCopies(op, post, Find(location, c), Reaches(live, websocketId, c))
      ensures HearsPost(op, post, c in live && websocketId != Some(c), Find(location, c), m0[c], m3[c])
    {
      var reached, at := Reaches(live, websocketId, c), Find(location, c);
      var p1 := Copies(sent, if reached && at == Some(InCommunity(0)) then 1 else 0);
      var p2 := Copies(sent, if reached && at == Some(InCommunity(post.communityId)) then 1 else 0);
      var p3 := Copies(sent, if reached && at == Some(InPost(post.id)) then 1 else 0);
      assert m1[c] == m0[c] + p1;
      assert m2[c] == m1[c] + p2;
      assert m3[c] == m2[c] + p3;
      assert m0[c] + p1 + p2 + p3 == m0[c] + (p1 + p2 + p3);
      PostCopiesAreHeard(op, post, at, reached, m0[c]);
    }
  }

  lemma NameOneMore(before: Mailboxes, mid: Mailboxes, after: Mailboxes, userOf: map<ConnectionId, UserId>,
                    live: set<ConnectionId>, websocketId: Option<ConnectionId>, message: Message,
                    done: seq<UserId>, next: UserId)
    requires Named(before, userOf, live, websocketId, message, done, mid)
    requires Delivered(mid, Audience(userOf, next, live, websocketId), message, after)
    ensures Named(before, userOf, live, websocketId, message, done + [next], after)
  {
    forall c | c in before
      ensures (after[c] == before[c]
               + Copies(message, if Reaches(live, websocketId, c) then Times(done + [next], Find(userOf, c)) else 0))
    {
      var n := if Reaches(live, websocketId, c) then Times(done, Find(userOf, c)) else 0;
      var more := if c in Audience(userOf, next, live, websocketId) then 1 else 0;
      assert multiset(done + [next]) == multiset(done) + multiset{next};
      assert Copies(message, n) + Copies(message, more) == Copies(message, n + more);
      assert before[c] + Copies(message, n) + Copies(message, more)
          == before[c] + (Copies(message, n) + Copies(message, more));
    }
  }

  function Find<K>(f: map<ConnectionId, K>, c: ConnectionId): Option<K> {
    if c in f then Some(f[c]) else None
  }

  function Copies(message: Message, n: nat): (s: seq<Message>)
    ensures |s| == n
    ensures forall i :: 0 <= i < n ==> s[i] == message
  {
    seq(n, i => message)
  }

  /** How often the joined user is named. */
  function Times(recipients: seq<UserId>, user: Option<UserId>): nat {
    if user.None? then 0 else multiset(recipients)[user.value]
  }

  /** What a named user gets: the sender's own vote and id are taken out. */
  function ReplyCopy(op: UserOperation, comment: CommentResponse): Message {
    CommentMessage(op, CommentResponse(comment.comment.(myVote := None, userId := None), comment.recipientIds))
  }

  /** What a room gets: the recipients are taken out as well. */
  function PostRoomCopy(op: UserOperation, comment: CommentResponse): Message {
    CommentMessage(op, CommentResponse(comment.comment.(myVote := None, userId := None), []))
  }

  /** What one connection gets for a comment: `reached` says that it is live and not the sender. */
  function CommentCopies(op: UserOperation, comment: CommentResponse, at: Option<Location>, user: Option<UserId>,
                         reached: bool): seq<Message> {
    if !reached then []
    else
      Copies(PostRoomCopy(op, comment), if at == Some(InPost(comment.comment.postId)) then 1 else 0)
      + Copies(ReplyCopy(op, comment), Times(comment.recipientIds, user))
      + Copies(PostRoomCopy(op, comment), if at == Some(InCommunity(0)) then 1 else 0)
      + Copies(PostRoomCopy(op, comment), if at == Some(InCommunity(comment.comment.communityId)) then 1 else 0)
  }

  function PostCopies(op: UserOperation, post: PostView, at: Option<Location>, reached: bool): seq<Message> {
    var sent := PostMessage(op, post.(myVote := None, userId := None));
    if !reached then []
    else
      Copies(sent, if at == Some(InCommunity(0)) then 1 else 0)
      + Copies(sent, if at == Some(InCommunity(post.communityId)) then 1 else 0)
      + Copies(sent, if at == Some(InPost(post.id)) then 1 else 0)
  }

  // ---------- what is in the messages ----------

  /** The comment without the sender's own vote and id, for all the named users or for none. */
  ghost predicate TellsComment(m: Message, op: UserOperation, comment: CommentResponse) {
    var c := comment.comment;
    && m.CommentMessage? && m.op == op
    && m.response.comment == CommentView(c.id, c.postId, c.communityId, None, None, c.content)
    && m.response.recipientIds in {[], comment.recipientIds}
  }

  /** How many of the messages name exactly these recipients. */
  function Naming(ms: seq<Message>, recipients: seq<UserId>): nat {
    if ms == [] then 0
    else
      (if ms[0].CommentMessage? && ms[0].response.recipientIds == recipients then 1 else 0)
      + Naming(ms[1..], recipients)
  }

  /** In how many of the three places a located connection hears of the post or comment. */
  function Places(at: Option<Location>, post: PostId, community: CommunityId): nat {
    (if at == Some(InPost(post)) then 1 else 0) + (if at == Some(InCommunity(0)) then 1 else 0)
    + if at == Some(InCommunity(community)) then 1 else 0
  }

  /**
   What a mailbox gains: nothing if its connection is dead or the sender, and otherwise one message without recipients
   for each place, and one with them for each time that its user is named.
   */
  ghost predicate HearsComment(op: UserOperation, comment: CommentResponse, live: bool, at: Option<Location>,
                               user: Option<UserId>, before: seq<Message>, after: seq<Message>) {
    before <= after
    && var new_ := after[|before|..];
       var c, named := comment.comment, if user.Some? then multiset(comment.recipientIds)[user.value] else 0;
       && (!live ==> new_ == [])
       && (forall k :: 0 <= k < |new_| ==> TellsComment(new_[k], op, comment))
       && (live ==> Naming(new_, []) == Places(at, c.postId, c.communityId))
       && (live && comment.recipientIds != [] ==> Naming(new_, comment.recipientIds) == named)
       && (live ==> |new_| == Places(at, c.postId, c.communityId) + named)
  }

  ghost predicate HearsPost(op: UserOperation, post: PostView, live: bool, at: Option<Location>, before: seq<Message>,
                            after: seq<Message>) {
    before <= after
    && var new_ := after[|before|..];
       && |new_| == (if live then Places(at, post.id, post.communityId) else 0)
       && forall k :: 0 <= k < |new_| ==>
            new_[k] == PostMessage(op, PostView(post.id, post.communityId, None, None, post.name))
  }

  lemma {:induction false} NamingAppend(a: seq<Message>, b: seq<Message>, recipients: seq<UserId>)
    ensures Naming(a + b, recipients) == Naming(a, recipients) + Naming(b, recipients)
  {
    if a == [] {
      assert a + b == b;
    } else {
      assert (a + b)[1..] == a[1..] + b;
      NamingAppend(a[1..], b, recipients);
    }
  }

  lemma {:induction false} NamingCopies(m: Message, n: nat, recipients: seq<UserId>)
    requires m.CommentMessage?
    ensures Naming(Copies(m, n), recipients) == if m.response.recipientIds == recipients then n else 0
  {
    if n > 0 {
      assert Copies(m, n)[1..] == Copies(m, n - 1);
      NamingCopies(m, n - 1, recipients);
    }
  }

  lemma NamingAll(op: UserOperation, comment: CommentResponse, at: Option<Location>, user: Option<UserId>,
                  recipients: seq<UserId>)
    ensures var c, named := comment.comment, Times(comment.recipientIds, user);
            var ms := CommentCopies(op, comment, at, user, true);
            Naming(ms, recipients)
            == (if recipients == [] then Places(at, c.postId, c.communityId) else 0)
               + if recipients == comment.recipientIds then named else 0
  {
    var c, room, reply := comment.comment, PostRoomCopy(op, comment), ReplyCopy(op, comment);
    var n1, n3, n4 := if at == Some(InPost(c.postId)) then 1 else 0, if at == Some(InCommunity(0)) then 1 else 0,
                      if at == Some(InCommunity(c.communityId)) then 1 else 0;
    var n2 := Times(comment.recipientIds, user);
    NamingCopies(room, n1, recipients);
    NamingCopies(reply, n2, recipients);
    NamingCopies(room, n3, recipients);
    NamingCopies(room, n4, recipients);
    NamingAppend(Copies(room, n1), Copies(reply, n2), recipients);
    NamingAppend(Copies(room, n1) + Copies(reply, n2), Copies(room, n3), recipients);
    NamingAppend(Copies(room, n1) + Copies(reply, n2) + Copies(room, n3), Copies(room, n4), recipients);
  }

  lemma CopiesAreHeard(op: UserOperation, comment: CommentResponse, at: Option<Location>, user: Option<UserId>,
                       live: bool,
                       before: seq<Message>)
    ensures HearsComment(op, comment, live, at, user, before, before + CommentCopies(op, comment, at, user, live))
  {
    var ms := CommentCopies(op, comment, at, user, live);
    assert (before + ms)[|before|..] == ms;
    if live {
      NamingAll(op, comment, at, user, []);
      NamingAll(op, comment, at, user, comment.recipientIds);
    }
  }

  lemma CommentIsHeard(op: UserOperation, comment: CommentResponse, location: map<ConnectionId, Location>,
                       userOf: map<ConnectionId, UserId>, live: set<ConnectionId>, websocketId: Option<ConnectionId>,
                       before: Mailboxes, after: Mailboxes)
    requires before.Keys == after.Keys
    requires forall c :: c in before ==>
               (after[c] == before[c]
                + CommentCopies(op, comment, Find(location, c), Find(userOf, c), Reaches(live, websocketId, c)))
    ensures forall c :: c in before ==>
              HearsComment(op, comment, c in live && websocketId != Some(c), Find(location, c), Find(userOf, c),
                           before[c], after[c])
  {
    forall c | c in before
      ensures HearsComment(op, comment, c in live && websocketId != Some(c), Find(location, c), Find(userOf, c),
                           before[c], after[c])
    {
      CopiesAreHeard(op, comment, Find(location, c), Find(userOf, c), c in live && websocketId != Some(c), before[c]);
    }
  }

  lemma PostCopiesAreHeard(op: UserOperation, post: PostView, at: Option<Location>, live: bool, before: seq<Message>)
    ensures HearsPost(op, post, live, at, before, before + PostCopies(op, post, at, live))
  {
    var ms := PostCopies(op, post, at, live);
    assert (before + ms)[|before|..] == ms;
  }

  // ---------- what the rooms promise ----------

  /**
   A comment of a community other than 0 reaches a live connection once for its location, if that is
   the post, the front page (community 0) or the community, and once for each time its user is named.
   In community 0 itself the front page would hear it twice.
   */
  lemma CommentCount(op: UserOperation, comment: CommentResponse, at: Option<Location>, user: Option<UserId>,
                     reached: bool)
    ensures var here := at == Some(InPost(comment.comment.postId)) || at == Some(InCommunity(0))
            || at == Some(InCommunity(comment.comment.communityId));
            |CommentCopies(op, comment, at, user, reached)|
            == if !reached then 0
               else
                 Times(comment.recipientIds, user)
                 + if !here then 0 else if comment.comment.communityId == 0 && at == Some(InCommunity(0)) then 2 else 1
  {
  }

  /** Nobody hears of a post twice, exactly when it is not in community 0 or nobody listens there. */
  lemma PostAtMostOnce(op: UserOperation, post: PostView, location: map<ConnectionId, Location>,
                       live: set<ConnectionId>, websocketId: Option<ConnectionId>)
    ensures (forall c :: |PostCopies(op, post, Find(location, c), Reaches(live, websocketId, c))| <= 1)
            <==> post.communityId != 0 || Audience(location, InCommunity(0), live, websocketId) == {}
  {
    var front := Audience(location, InCommunity(0), live, websocketId);
    if post.communityId == 0 && front != {} {
      var c :| c in front;
      assert |PostCopies(op, post, Find(location, c), Reaches(live, websocketId, c))| == 2;
    } else {
      forall c
        ensures |PostCopies(op, post, Find(location, c), Reaches(live, websocketId, c))| <= 1
      {
        assert c !in front || post.communityId != 0;
      }
    }
  }

  ghost function Total<K>(rooms: Rooms<K>): nat
    decreases rooms.Keys
  {
    if rooms == map[] then 0
    else
      var k := Pick(rooms);
      |rooms[k]| + Total(rooms - {k})
  }

  ghost function Pick<K>(rooms: Rooms<K>): K
    requires rooms != map[]
    ensures Pick(rooms) in rooms
  {
    var k :| k in rooms;
    k
  }

  /** The rooms of an inverse image hold every connection once. */
  lemma {:induction false} TotalIsSize<K(!new)>(rooms: Rooms<K>, f: map<ConnectionId, K>)
    requires Inverse(rooms, f)
    ensures Total(rooms) == |f.Keys|
    decreases rooms.Keys
  {
    if rooms == map[] {
      NoRooms(rooms, f);
    } else {
      var k := Pick(rooms);
      var rest := f - rooms[k];
      assert Inverse(rooms - {k}, rest) && |rooms[k]| + |rest.Keys| == |f.Keys| by {
        LeaveKeepsRest(rooms, f, k);
        SizesAdd(rooms[k], rest.Keys, f.Keys);
      }
      TotalIsSize(rooms - {k}, rest);
    }
  }

  lemma NoRooms<K(!new)>(rooms: Rooms<K>, f: map<ConnectionId, K>)
    requires Inverse(rooms, f) && rooms == map[]
    ensures f.Keys == {}
  {
    forall c | c in f.Keys
      ensures f[c] in rooms.Keys
    {
    }
  }

  lemma LeaveKeepsRest<K(!new)>(rooms: Rooms<K>, f: map<ConnectionId, K>, k: K)
    requires Inverse(rooms, f) && k in rooms
    ensures Inverse(rooms - {k}, f - rooms[k])
    ensures rooms[k] + (f - rooms[k]).Keys == f.Keys
  {
    assert forall c :: c in rooms[k] ==> c in f;
  }

  lemma SizesAdd<T>(a: set<T>, b: set<T>, all: set<T>)
    requires a !! b && a + b == all
    ensures |a| + |b| == |all|
  {
  }

  /** Post rooms and community rooms together hold exactly the located connections, each one once. */
  lemma RoomSizesAddUp(postRooms: Rooms<PostId>, communityRooms: Rooms<CommunityId>,
                       location: map<ConnectionId, Location>)
    requires InverseLocation(postRooms, communityRooms, location)
    ensures Total(postRooms) + Total(communityRooms) == |location.Keys|
  {
    var posts := Posts(location);
    var communities := Communities(location);
    SplitInverse(postRooms, communityRooms, location);
    SplitKeys(location);
    TotalIsSize(postRooms, posts);
    TotalIsSize(communityRooms, communities);
    SizesAdd(posts.Keys, communities.Keys, location.Keys);
  }

  lemma SplitInverse(postRooms: Rooms<PostId>, communityRooms: Rooms<CommunityId>,
                     location: map<ConnectionId, Location>)
    requires InverseLocation(postRooms, communityRooms, location)
    ensures Inverse(postRooms, Posts(location)) && Inverse(communityRooms, Communities(location))
  {
  }

  lemma SplitKeys(location: map<ConnectionId, Location>)
    ensures Posts(location).Keys !! Communities(location).Keys
    ensures Posts(location).Keys + Communities(location).Keys == location.Keys
  {
  }

  ghost function Posts(location: map<ConnectionId, Location>): map<ConnectionId, PostId> {
    map c | c in location && location[c].InPost? :: location[c].post
  }

  ghost function Communities(location: map<ConnectionId, Location>): map<ConnectionId, CommunityId> {
    map c | c in location && location[c].InCommunity? :: location[c].community
  }
}

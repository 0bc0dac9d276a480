/**
 The three inboxes of lemmy_apub/src/inbox: the log of known activities, routing, and what an
 Announce does with the activity inside it. One request is handled at a time.

 `Deliver` gives the meaning of one request; the class follows it. The state records which activity
 ids had their handler run (`outer`) and which inner ids an Announce passed on (`inner`).
 */
module Inbox {
  import opened Wrappers
  import opened Sequences
  import opened Apub
  import opened Activities

  datatype Kind = Create | Update | Like | Dislike | Delete | Remove | Undo | Follow | Accept | Announce

  datatype Activity = Activity(id: Url, kind: Kind, toAndCc: seq<Url>, content: Option<Activity>)

  const PUBLIC := Url("https", Domain("www.w3.org", false), None, "/ns/activitystreams#Public")

  /** What the handlers look up: which actors are stored (and local), and who has local followers. */
  datatype Site = Site(communities: map<Url, bool>, users: map<Url, bool>, communityOfCollection: map<Url, Url>,
                       followed: set<Url>)

  /** `bodyOk` is the outcome of the activity's own handler, whatever that does. */
  datatype Env = Env(settings: Settings, site: Site, bodyOk: Activity -> bool)

  datatype State = State(log: seq<ActivityRow>, outer: seq<Url>, inner: seq<Url>)

  datatype Response = Finished | NotImplemented | Failed

  datatype Reply = Reply(state: State, response: Response)

  /** Which inbox was hit; the path names a community or user that may not exist. */
  datatype Door = CommunityDoor(community: Option<Url>) | UserDoor(user: Option<Url>) | SharedDoor

  predicate ToLocalUser(site: Site, urls: seq<Url>) {
    exists u :: u in urls && u in site.users && site.users[u]
  }

  predicate ToLocalCommunity(site: Site, urls: seq<Url>) {
    exists u :: u in urls && u in site.communities && site.communities[u]
  }

  /** The first followers collection of a remote community; an unknown community is an error. */
  function FollowersAddressed(site: Site, urls: seq<Url>): Result<Option<Url>, ()> {
    if urls == [] then Success(None)
    else if urls[0] in site.communityOfCollection then
      var community := site.communityOfCollection[urls[0]];
      if community !in site.communities then Failure(())
      else if !site.communities[community] then Success(Some(community))
      else FollowersAddressed(site, urls[1..])
    else FollowersAddressed(site, urls[1..])
  }

  predicate IsForUserInbox(site: Site, a: Activity) {
    ToLocalUser(site, a.toAndCc)
    || var c := FollowersAddressed(site, a.toAndCc);
       c.Success? && c.value.Some? && c.value.value in site.followed
  }

  predicate PassedOn(kind: Kind) {
    kind in {Create, Update, Like, Dislike, Delete, Remove, Undo}
  }

  function ResponseOf(ok: bool): Response {
    if ok then Finished else Failed
  }

  function ReceiveAnnounce(env: Env, s: State, a: Activity): Reply {
    if PUBLIC !in a.toAndCc || a.content.None? || !IsValid(env.settings, a.content.value.id) then Reply(s, Failed)
    else
      var content := a.content.value;
      if Known(s.log, content.id) then Reply(s, Finished)
      else if content.kind in {Create, Update, Like, Dislike, Delete, Remove, Undo} then
        Reply(s.(inner := s.inner + [content.id]), ResponseOf(env.bodyOk(content)))
      else Reply(s, Failed)
  }

  function UserReceiveMessage(env: Env, s: State, a: Activity): Reply {
    if !IsForUserInbox(env.site, a) then Reply(s, Failed)
    else if a.kind == Announce then ReceiveAnnounce(env, s, a)
    else Reply(s, ResponseOf(env.bodyOk(a)))
  }

  /** The activity is logged before its handler runs, so a failed handler counts as a run too. */
  function Logged(s: State, a: Activity): State {
    s.(log := s.log + [ActivityRow(a.id, false, true)])
  }

  function Ran(s: State, a: Activity): State {
    s.(outer := s.outer + [a.id])
  }

  function Route(env: Env, s: State, a: Activity): Reply {
    if ToLocalCommunity(env.site, a.toAndCc) then
      Reply(Ran(s, a), ResponseOf(env.bodyOk(a)))
    else if ToLocalUser(env.site, a.toAndCc) then
      // the handler's answer is not passed on in this branch
      var r := UserReceiveMessage(env, Ran(s, a), a);
      Reply(r.state, if r.response == Failed then Failed else NotImplemented)
    else
      match FollowersAddressed(env.site, a.toAndCc)
      case Failure(_) => Reply(s, Failed)
      case Success(None) => Reply(s, NotImplemented)
      case Success(Some(_)) => UserReceiveMessage(env, Ran(s, a), a)
  }

  function Deliver(env: Env, s: State, door: Door, a: Activity): Reply {
    if Known(s.log, a.id) then Reply(s, Finished)
    else
      match door
      case CommunityDoor(community) =>
        if community.None? || community.value !in a.toAndCc then Reply(s, Failed)
        else Reply(Ran(Logged(s, a), a), ResponseOf(env.bodyOk(a)))
      case UserDoor(user) =>
        if user.None? || user.value !in a.toAndCc then Reply(s, Failed)
        else UserReceiveMessage(env, Ran(Logged(s, a), a), a)
      case SharedDoor =>
        Route(env, Logged(s, a), a)
  }

  class Inboxes {
    const env: Env
    const activities: ActivityTable
    ghost var outer: seq<Url>
    ghost var inner: seq<Url>

    constructor (env: Env, activities: ActivityTable)
      ensures this.env == env && this.activities == activities && outer == [] && inner == []
    {
      this.env, this.activities, outer, inner := env, activities, [], [];
    }

    ghost function Now(): State
      reads this, activities
    {
      State(activities.rows, outer, inner)
    }

    method IsActivityAlreadyKnown(id: Url) returns (known: bool)
      ensures known == Known(activities.rows, id)
    {
      known := false;
      for i := 0 to |activities.rows|
        invariant known == Known(activities.rows[..i], id)
      {
        assert activities.rows[..i + 1] == activities.rows[..i] + [activities.rows[i]];
        if activities.rows[i].apId == id {
          known := true;
        }
      }
      assert activities.rows[..|activities.rows|] == activities.rows;
    }

    method CommunityInbox(community: Option<Url>, a: Activity) returns (response: Response)
      modifies this, activities
      ensures Reply(Now(), response) == Deliver(env, old(Now()), CommunityDoor(community), a)
      ensures IsDelivered(env, old(Now()), CommunityDoor(community), a, Now(), response)
    {
      DeliverIs(env, Now(), CommunityDoor(community), a);
      var known := IsActivityAlreadyKnown(a.id);
      if known {
        return Finished;
      }
      if community.None? || community.value !in a.toAndCc {
        return Failed;
      }
      activities.Insert(a.id, false, true);
      outer := outer + [a.id];
      response := ResponseOf(env.bodyOk(a));
    }

    method UserInbox(user: Option<Url>, a: Activity) returns (response: Response)
      modifies this, activities
      ensures Reply(Now(), response) == Deliver(env, old(Now()), UserDoor(user), a)
      ensures IsDelivered(env, old(Now()), UserDoor(user), a, Now(), response)
    {
      DeliverIs(env, Now(), UserDoor(user), a);
      var known := IsActivityAlreadyKnown(a.id);
      if known {
        return Finished;
      }
      if user.None? || user.value !in a.toAndCc {
        return Failed;
      }
      activities.Insert(a.id, false, true);
      outer := outer + [a.id];
      response := ReceiveMessage(a);
    }

    method SharedInbox(a: Activity) returns (response: Response)
      modifies this, activities
      ensures Reply(Now(), response) == Deliver(env, old(Now()), SharedDoor, a)
      ensures IsDelivered(env, old(Now()), SharedDoor, a, Now(), response)
    {
      DeliverIs(env, Now(), SharedDoor, a);
      var known := IsActivityAlreadyKnown(a.id);
      if known {
        return Finished;
      }
      activities.Insert(a.id, false, true);
      if ToLocalCommunity(env.site, a.toAndCc) {
        outer := outer + [a.id];
        return ResponseOf(env.bodyOk(a));
      }
      if ToLocalUser(env.site, a.toAndCc) {
        outer := outer + [a.id];
        response := ReceiveMessage(a);
        return if response == Failed then Failed else NotImplemented;
      }
      match FollowersAddressed(env.site, a.toAndCc) {
        case Failure(_) =>
          response := Failed;
        case Success(None) =>
          response := NotImplemented;
        case Success(Some(_)) =>
          outer := outer + [a.id];
          response := ReceiveMessage(a);
      }
    }

    /** `user_receive_message`, with `receive_announce` inside it. */
    method ReceiveMessage(a: Activity) returns (response: Response)
      modifies this
      ensures Reply(Now(), response) == UserReceiveMessage(env, old(Now()), a)
    {
      if !IsForUserInbox(env.site, a) {
        return Failed;
      }
      if a.kind != Announce {
        return ResponseOf(env.bodyOk(a));
      }
      if PUBLIC !in a.toAndCc || a.content.None? || !IsValid(env.settings, a.content.value.id) {
        return Failed;
      }
      var content := a.content.value;
      var known := IsActivityAlreadyKnown(content.id);
      if known {
        return Finished;
      }
      if content.kind in {Create, Update, Like, Dislike, Delete, Remove, Undo} {
        inner := inner + [content.id];
        response := ResponseOf(env.bodyOk(content));
      } else {
        response := Failed;
      }
    }
  }

  // ---------- one request, in its own terms ----------

  /** The followers collection of a remote community, and one whose community is not stored. */
  predicate OfRemote(site: Site, u: Url) {
    && u in site.communityOfCollection
    && var c := site.communityOfCollection[u];
       c in site.communities && !site.communities[c]
  }

  predicate OfUnknown(site: Site, u: Url) {
    u in site.communityOfCollection && site.communityOfCollection[u] !in site.communities
  }

  /** The first of the URLs that is one of the two. */
  ghost predicate Decides(site: Site, urls: seq<Url>, i: int) {
    && 0 <= i < |urls| && (OfRemote(site, urls[i]) || OfUnknown(site, urls[i]))
    && forall j :: 0 <= j < i ==> !OfRemote(site, urls[j]) && !OfUnknown(site, urls[j])
  }

  lemma {:induction false} FirstDecides(site: Site, urls: seq<Url>, from: nat)
    requires from <= |urls| && forall j :: 0 <= j < from ==> !OfRemote(site, urls[j]) && !OfUnknown(site, urls[j])
    ensures forall i :: Decides(site, urls, i) ==>
              FollowersAddressed(site, urls[from..])
              == if OfUnknown(site, urls[i]) then Failure(()) else Success(Some(site.communityOfCollection[urls[i]]))
    ensures (forall i :: !Decides(site, urls, i)) ==> FollowersAddressed(site, urls[from..]) == Success(None)
    decreases |urls| - from
  {
    if from < |urls| {
      assert urls[from..][0] == urls[from] && urls[from..][1..] == urls[from + 1..];
      if OfRemote(site, urls[from]) || OfUnknown(site, urls[from]) {
        assert Decides(site, urls, from);
        assert forall i :: Decides(site, urls, i) ==> i == from;
      } else {
        FirstDecides(site, urls, from + 1);
      }
    }
  }

  ghost predicate HasLocalUser(site: Site, urls: seq<Url>) {
    exists u :: u in urls && u in site.users && site.users[u]
  }

  ghost predicate HasLocalCommunity(site: Site, urls: seq<Url>) {
    exists u :: u in urls && u in site.communities && site.communities[u]
  }

  ghost predicate HasRemoteFollowers(site: Site, urls: seq<Url>) {
    exists i :: Decides(site, urls, i) && OfRemote(site, urls[i])
  }

  /** For a local user, or for the local followers of a remote community. */
  ghost predicate IsForUsers(site: Site, urls: seq<Url>) {
    || HasLocalUser(site, urls)
    || exists i ::
         Decides(site, urls, i) && OfRemote(site, urls[i]) && site.communityOfCollection[urls[i]] in site.followed
  }

  lemma UserInboxIsFor(site: Site, a: Activity)
    ensures IsForUserInbox(site, a) <==> IsForUsers(site, a.toAndCc)
    ensures ToLocalUser(site, a.toAndCc) <==> HasLocalUser(site, a.toAndCc)
    ensures ToLocalCommunity(site, a.toAndCc) <==> HasLocalCommunity(site, a.toAndCc)
    ensures var c := FollowersAddressed(site, a.toAndCc);
            && (c.Success? && c.value.Some? <==> HasRemoteFollowers(site, a.toAndCc))
            && (c.Failure? <==> exists i :: Decides(site, a.toAndCc, i) && OfUnknown(site, a.toAndCc[i]))
  {
    FirstDecides(site, a.toAndCc, 0);
    assert a.toAndCc[0..] == a.toAndCc;
    if i :| Decides(site, a.toAndCc, i) {
      assert forall j :: Decides(site, a.toAndCc, j) ==> j == i;
    }
  }

  ghost predicate IsHandled(site: Site, door: Door, urls: seq<Url>) {
    match door
    case CommunityDoor(community) => community.Some? && community.value in urls
    case UserDoor(user) => user.Some? && user.value in urls
    case SharedDoor => HasLocalCommunity(site, urls) || HasLocalUser(site, urls) || HasRemoteFollowers(site, urls)
  }

  /** The request is handled as one for users, not as one for a community. */
  ghost predicate IsUserRequest(site: Site, door: Door, urls: seq<Url>) {
    IsHandled(site, door, urls) && (door.UserDoor? || (door.SharedDoor? && !HasLocalCommunity(site, urls)))
  }

  /** An Announce to the public around an admitted activity that may be announced. */
  ghost predicate IsOpenAnnounce(env: Env, a: Activity) {
    a.kind == Announce && PUBLIC in a.toAndCc && a.content.Some? && IsValid(env.settings, a.content.value.id)
  }

  /** The activity inside is passed on, unless it is known; the Announce itself has been logged by then. */
  ghost predicate Unwraps(env: Env, log: seq<ActivityRow>, door: Door, a: Activity) {
    && IsUserRequest(env.site, door, a.toAndCc) && IsForUsers(env.site, a.toAndCc) && IsOpenAnnounce(env, a)
    && a.content.value.id != a.id && !Known(log, a.content.value.id)
    && a.content.value.kind in {Create, Update, Like, Dislike, Delete, Remove, Undo}
  }

  /** The handler does not fail. */
  ghost predicate Succeeds(env: Env, log: seq<ActivityRow>, door: Door, a: Activity) {
    if !IsUserRequest(env.site, door, a.toAndCc) then env.bodyOk(a)
    else
      && IsForUsers(env.site, a.toAndCc)
      && if a.kind != Announce then env.bodyOk(a)
         else
           && IsOpenAnnounce(env, a)
           && if Unwraps(env, log, door, a) then env.bodyOk(a.content.value)
              else a.content.value.id == a.id || Known(log, a.content.value.id)
  }

  /** What one request does to the log and whose handlers it runs, and what it is answered. */
  ghost predicate IsDelivered(env: Env, s: State, door: Door, a: Activity, t: State, response: Response) {
    var urls := a.toAndCc;
    if exists r :: r in s.log && r.apId == a.id then t == s && response == Finished
    else
      && t.log == s.log + (if door.SharedDoor? || IsHandled(env.site, door, urls)
                           then [ActivityRow(a.id, false, true)] else [])
      && t.outer == s.outer + (if IsHandled(env.site, door, urls) then [a.id] else [])
      && t.inner == s.inner + (if Unwraps(env, s.log, door, a) then [a.content.value.id] else [])
      && response == (if !IsHandled(env.site, door, urls)
                      then if door.SharedDoor? && !exists i :: Decides(env.site, urls, i)
                      then NotImplemented else Failed
                      else if !Succeeds(env, s.log, door, a) then Failed
                      else if door.SharedDoor? && !HasLocalCommunity(env.site, urls) && HasLocalUser(env.site, urls)
                      then NotImplemented
                      else Finished)
  }

  lemma LoggedKnows(log: seq<ActivityRow>, a: Url, id: Url)
    ensures Known(log + [ActivityRow(a, false, true)], id) <==> Known(log, id) || id == a
  {
    var more := log + [ActivityRow(a, false, true)];
    assert more[|log|] == ActivityRow(a, false, true);
    assert forall r :: r in log ==> r in more;
  }

  lemma AnnounceIs(env: Env, s: State, a: Activity)
    requires a.kind == Announce && Known(s.log, a.id)
    ensures var r := ReceiveAnnounce(env, s, a);
            && r.state.log == s.log && r.state.outer == s.outer
            && (IsOpenAnnounce(env, a) && !Known(s.log, a.content.value.id) && PassedOn(a.content.value.kind) ==>
                  r.state.inner == s.inner + [a.content.value.id]
                    && r.response == ResponseOf(env.bodyOk(a.content.value)))
            && (IsOpenAnnounce(env, a) && Known(s.log, a.content.value.id) ==> r == Reply(s, Finished))
            && (!IsOpenAnnounce(env, a) || (!Known(s.log, a.content.value.id) && !PassedOn(a.content.value.kind)) ==>
                  r == Reply(s, Failed))
  {
  }

  lemma DeliverIs(env: Env, s: State, door: Door, a: Activity)
    ensures var r := Deliver(env, s, door, a); IsDelivered(env, s, door, a, r.state, r.response)
  {
    UserInboxIsFor(env.site, a);
    LoggedKnows(s.log, a.id, a.id);
    if a.content.Some? {
      LoggedKnows(s.log, a.id, a.content.value.id);
    }
    if a.kind == Announce {
      AnnounceIs(env, Ran(Logged(s, a), a), a);
    }
  }

  // ---------- properties of every run ----------

  /** A request, or a local user's activity being logged while it is sent to a remote community. */
  datatype Event = Request(door: Door, activity: Activity) | Sent(id: Url)

  function Step(env: Env, s: State, e: Event): State {
    match e
    case Request(door, a) => Deliver(env, s, door, a).state
    case Sent(id) => s.(log := s.log + [ActivityRow(id, true, false)])
  }

  function Run(env: Env, s: State, es: seq<Event>): State
    decreases es
  {
    if es == [] then s else Run(env, Step(env, s, es[0]), es[1..])
  }

  ghost predicate StateOk(s: State) {
    NoDuplicates(s.outer) && forall id :: id in s.outer ==> Known(s.log, id)
  }

  /** A step only adds to the log, and runs a handler only for an id that was not in it. */
  lemma StepEffects(env: Env, s: State, e: Event)
    ensures var t := Step(env, s, e);
            && s.log <= t.log
            && (t.outer == s.outer || (e.Request? && t.outer == s.outer + [e.activity.id]
                                       && !Known(s.log, e.activity.id) && Known(t.log, e.activity.id)))
            && (t.inner == s.inner || (e.Request? && e.activity.content.Some?
                                       && t.inner == s.inner + [e.activity.content.value.id]
                                       && !Known(s.log, e.activity.content.value.id)))
  {
    if e.Request? {
      var l := Logged(s, e.activity);
      assert ActivityRow(e.activity.id, false, true) in l.log;
      assert forall r :: r in s.log ==> r in l.log;
    }
  }

  lemma KnownStays(a: seq<ActivityRow>, b: seq<ActivityRow>, id: Url)
    requires a <= b && Known(a, id)
    ensures Known(b, id)
  {
    var r :| r in a && r.apId == id;
    assert r in b;
  }

  /**
   De-duplication at the inboxes: whatever is delivered, at whatever inbox and how often, none of them handles the
   activity of one request twice (`outer`). An Announce can still apply it again: `AppliedAtMostOnceIff`.
   */
  lemma {:induction false} HandlersRunOnce(env: Env, s: State, es: seq<Event>)
    requires StateOk(s)
    ensures StateOk(Run(env, s, es))
    decreases es
  {
    if es != [] {
      var t := Step(env, s, es[0]);
      StepEffects(env, s, es[0]);
      forall id | id in t.outer
        ensures Known(t.log, id)
      {
        if id in s.outer {
          KnownStays(s.log, t.log, id);
        }
      }
      HandlersRunOnce(env, t, es[1..]);
    }
  }

  /** Once an id is in the log, neither a request nor an Announce around it has any effect again. */
  lemma {:induction false} KnownIsNeverApplied(env: Env, s: State, es: seq<Event>, id: Url)
    requires Known(s.log, id)
    ensures var t := Run(env, s, es);
            && Known(t.log, id)
            && multiset(t.outer)[id] == multiset(s.outer)[id]
            && multiset(t.inner)[id] == multiset(s.inner)[id]
    decreases es
  {
    if es != [] {
      var t := Step(env, s, es[0]);
      StepEffects(env, s, es[0]);
      KnownStays(s.log, t.log, id);
      KnownIsNeverApplied(env, t, es[1..], id);
    }
  }

  /** An activity that a local user sent out is not applied again when the community announces it. */
  lemma OwnActivityNotReapplied(env: Env, s: State, id: Url, es: seq<Event>)
    requires id !in s.outer && id !in s.inner
    ensures var t := Run(env, Step(env, s, Sent(id)), es); id !in t.outer && id !in t.inner
  {
    var t := Step(env, s, Sent(id));
    assert ActivityRow(id, true, false) in t.log;
    KnownIsNeverApplied(env, t, es, id);
    assert multiset(t.outer)[id] == 0 && multiset(t.inner)[id] == 0;
  }

  // ---------- activities inside an Announce ----------

  /** Somebody here is addressed by activities for users: a local user, or the followers of a remote community. */
  ghost predicate HasAudience(site: Site) {
    exists u :: IsAddressee(site, u)
  }

  predicate IsAddressee(site: Site, u: Url) {
    || (u in site.users && site.users[u])
    || (u in site.communityOfCollection
        && var c := site.communityOfCollection[u]; c in site.communities && !site.communities[c] && c in site.followed)
  }

  lemma {:induction false} FollowersAddressedMeans(site: Site, urls: seq<Url>)
    ensures var c := FollowersAddressed(site, urls);
            c.Success? && c.value.Some? && c.value.value in site.followed ==>
              exists u :: u in urls && IsAddressee(site, u)
  {
    if urls != [] {
      assert urls[0] in urls && forall u :: u in urls[1..] ==> u in urls;
      FollowersAddressedMeans(site, urls[1..]);
    }
  }

  /** An Announce to one addressee and the public is for the user inbox, and nothing is if there is no addressee. */
  lemma AudienceMatters(site: Site, a: Activity, u: Url)
    ensures IsForUserInbox(site, a) ==> HasAudience(site)
    ensures IsAddressee(site, u) && a.toAndCc == [u, PUBLIC] ==> IsForUserInbox(site, a)
  {
    FollowersAddressedMeans(site, a.toAndCc);
    if IsForUserInbox(site, a) && ToLocalUser(site, a.toAndCc) {
      var v :| v in a.toAndCc && v in site.users && site.users[v];
      assert IsAddressee(site, v);
    }
    if IsAddressee(site, u) && a.toAndCc == [u, PUBLIC] {
      assert a.toAndCc[0] == u;
    }
  }

  /** What it takes for an Announce to apply the activity `id`. */
  ghost predicate CanBeAnnounced(env: Env, s: State, id: Url) {
    !Known(s.log, id) && IsValid(env.settings, id) && HasAudience(env.site)
  }

  lemma StepAnnounces(env: Env, s: State, e: Event)
    ensures var t := Step(env, s, e);
            t.inner != s.inner ==>
              && e.Request? && e.activity.content.Some? && IsValid(env.settings, e.activity.content.value.id)
              && HasAudience(env.site)
  {
    if e.Request? {
      AudienceMatters(env.site, e.activity, PUBLIC);
    }
  }

  lemma {:induction false} NeverAnnounced(env: Env, s: State, es: seq<Event>, id: Url)
    requires !CanBeAnnounced(env, s, id)
    ensures multiset(Run(env, s, es).inner)[id] == multiset(s.inner)[id]
    decreases es
  {
    if Known(s.log, id) {
      KnownIsNeverApplied(env, s, es, id);
    } else if es != [] {
      StepEffects(env, s, es[0]);
      StepAnnounces(env, s, es[0]);
      NeverAnnounced(env, Step(env, s, es[0]), es[1..], id);
    }
  }

  lemma {:induction false} InboxesHandleOnce(env: Env, s: State, es: seq<Event>, id: Url)
    ensures multiset(Run(env, s, es).outer)[id] <= multiset(s.outer)[id] + 1
    decreases es
  {
    if es != [] {
      var t := Step(env, s, es[0]);
      StepEffects(env, s, es[0]);
      if t.outer != s.outer && es[0].activity.id == id {
        KnownIsNeverApplied(env, t, es[1..], id);
      } else {
        InboxesHandleOnce(env, t, es[1..], id);
      }
    }
  }

  /** An Announce to `u` with an id of its own applies the content, and logs only itself. */
  lemma AnnounceApplies(env: Env, s: State, a: Activity, u: Url)
    requires a.kind == Announce && a.toAndCc == [u, PUBLIC] && IsAddressee(env.site, u) && a.content.Some?
    requires var x := a.content.value; PassedOn(x.kind) && CanBeAnnounced(env, s, x.id) && a.id != x.id
    requires !Known(s.log, a.id)
    ensures Step(env, s, Request(UserDoor(Some(u)), a))
            == State(s.log + [ActivityRow(a.id, false, true)], s.outer + [a.id], s.inner + [a.content.value.id])
  {
    AudienceMatters(env.site, a, u);
    assert a.toAndCc[0] == u && a.toAndCc[1] == PUBLIC;
  }

  function AnnounceOf(id: Url, x: Activity, u: Url): Activity {
    Activity(id, Announce, [u, PUBLIC], Some(x))
  }

  /**
   The id inside an Announce is looked up but not logged: a second Announce around the same activity,
   sent under its own id, applies it a second time.
   */
  lemma TwoAnnouncesApplyTwice(env: Env, s: State, x: Activity, a: Url, b: Url, u: Url)
    requires IsAddressee(env.site, u) && PassedOn(x.kind) && CanBeAnnounced(env, s, x.id)
    requires a != b && x.id !in {a, b} && !Known(s.log, a) && !Known(s.log, b)
    ensures var door := UserDoor(Some(u));
            Run(env, s, [Request(door, AnnounceOf(a, x, u)), Request(door, AnnounceOf(b, x, u))])
            == State(s.log + [ActivityRow(a, false, true)] + [ActivityRow(b, false, true)], s.outer + [a] + [b],
                     s.inner + [x.id] + [x.id])
  {
    var e, f := Request(UserDoor(Some(u)), AnnounceOf(a, x, u)), Request(UserDoor(Some(u)), AnnounceOf(b, x, u));
    AnnounceApplies(env, s, e.activity, u);
    var t := Step(env, s, e);
    assert !Known(t.log, b) && !Known(t.log, x.id);
    AnnounceApplies(env, t, f.activity, u);
    RunTwo(env, s, e, f);
  }

  /** A request at this inbox gets as far as a handler. */
  predicate IsAddressedTo(site: Site, x: Activity, door: Door) {
    match door
    case CommunityDoor(community) => community.Some? && community.value in x.toAndCc
    case UserDoor(user) => user.Some? && user.value in x.toAndCc
    case SharedDoor =>
      || ToLocalCommunity(site, x.toAndCc) || ToLocalUser(site, x.toAndCc)
      || var c := FollowersAddressed(site, x.toAndCc); c.Success? && c.value.Some?
  }

  /** So does the activity itself when it comes to any inbox after the Announce. */
  lemma AnnouncedThenDelivered(env: Env, s: State, x: Activity, a: Url, u: Url, door: Door)
    requires IsAddressee(env.site, u) && PassedOn(x.kind) && CanBeAnnounced(env, s, x.id)
    requires x.id != a && !Known(s.log, a)
    requires IsAddressedTo(env.site, x, door)
    ensures var t := Run(env, s, [Request(UserDoor(Some(u)), AnnounceOf(a, x, u)), Request(door, x)]);
            t.outer == s.outer + [a] + [x.id] && s.inner + [x.id] <= t.inner
  {
    var e, f := Request(UserDoor(Some(u)), AnnounceOf(a, x, u)), Request(door, x);
    AnnounceApplies(env, s, e.activity, u);
    assert !Known(Step(env, s, e).log, x.id);
    RunTwo(env, s, e, f);
  }

  lemma RunTwo(env: Env, s: State, e: Event, f: Event)
    ensures Run(env, s, [e, f]) == Step(env, Step(env, s, e), f)
  {
    assert [e, f][1..] == [f];
    var t := Step(env, s, e);
    assert Run(env, t, [f]) == Run(env, Step(env, t, f), []);
  }

  /** How often the activity has been applied, by an inbox or through an Announce. */
  function Applied(s: State, id: Url): nat {
    multiset(s.outer)[id] + multiset(s.inner)[id]
  }

  ghost predicate AtMostOnceMore(env: Env, s: State, es: seq<Event>, id: Url) {
    Applied(Run(env, s, es), id) <= Applied(s, id) + 1
  }

  ghost predicate AnnouncedAtMostOnceMore(env: Env, s: State, es: seq<Event>, id: Url) {
    multiset(Run(env, s, es).inner)[id] <= multiset(s.inner)[id] + 1
  }

  /**
   Announces apply an activity at most once in every run, and inboxes and Announces together do, exactly when no
   Announce can apply it at all: it is known, or its id is not admitted, or nobody here is addressed by activities for
   users.
   */
  lemma AppliedAtMostOnceIff(env: Env, s: State, id: Url)
    ensures (forall es :: AnnouncedAtMostOnceMore(env, s, es, id)) <==> !CanBeAnnounced(env, s, id)
    ensures (forall es :: AtMostOnceMore(env, s, es, id)) <==> !CanBeAnnounced(env, s, id)
  {
    if CanBeAnnounced(env, s, id) {
      var u :| IsAddressee(env.site, u);
      var x := Activity(id, Like, [], None);
      var a, b := FreshUrls(s.log, id);
      TwoAnnouncesApplyTwice(env, s, x, a, b, u);
      var door := UserDoor(Some(u));
      var es := [Request(door, AnnounceOf(a, x, u)), Request(door, AnnounceOf(b, x, u))];
      assert !AnnouncedAtMostOnceMore(env, s, es, id) && !AtMostOnceMore(env, s, es, id);
    } else {
      forall es
        ensures AnnouncedAtMostOnceMore(env, s, es, id) && AtMostOnceMore(env, s, es, id)
      {
        NeverAnnounced(env, s, es, id);
        InboxesHandleOnce(env, s, es, id);
      }
    }
  }

  function Longest(log: seq<ActivityRow>): (n: nat)
    ensures forall r :: r in log ==> |r.apId.path| <= n
  {
    if log == [] then 0
    else
      var n := Longest(log[1..]);
      assert log == [log[0]] + log[1..];
      if |log[0].apId.path| > n then |log[0].apId.path| else n
  }

  /** There are always two new ids. */
  lemma FreshUrls(log: seq<ActivityRow>, id: Url) returns (a: Url, b: Url)
    ensures a != b && id !in {a, b} && !Known(log, a) && !Known(log, b)
  {
    var n := Longest(log) + |id.path| + 1;
    a, b := Url("https", NoHost, None, seq(n, _ => 'a')), Url("https", NoHost, None, seq(n + 1, _ => 'a'));
    assert |a.path| == n && |b.path| == n + 1;
  }

  // ---------- the answer of the shared inbox ----------

  /** When the shared inbox says that it cannot handle what it has just handled: the addressee is a local user. */
  lemma NotImplementedIff(env: Env, s: State, a: Activity)
    ensures var r := Deliver(env, s, SharedDoor, a);
            r.response == NotImplemented && r.state.outer != s.outer
            <==> && !Known(s.log, a.id) && !ToLocalCommunity(env.site, a.toAndCc) && ToLocalUser(env.site, a.toAndCc)
                 && UserReceiveMessage(env, Ran(Logged(s, a), a), a).response == Finished
  {
  }
}

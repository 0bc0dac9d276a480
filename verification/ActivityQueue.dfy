/**
 Outgoing activities: lemmy_apub/src/activity_queue.rs and the follower inboxes of
 lemmy_apub/src/activities/send/community.rs.
 */
module ActivityQueue {
  import opened Wrappers
  import opened Sequences
  import opened Apub
  import opened Activities

  /** A row of the follower view; `actor` is None when the stored id does not parse as a URL. */
  datatype Follower = Follower(actor: Option<Url>, userLocal: bool)

  datatype Actor = Actor(id: Url, privateKey: Option<string>)

  /** An activity to send: its id and its serialised form. */
  datatype Outgoing = Outgoing(id: Option<Url>, json: string)

  datatype SendActivityTask = SendActivityTask(activity: string, inbox: Url, actor: Url, privateKey: string)

  datatype SendError = NoActivityId | NoPrivateKey | QueueRefused | InvalidInbox(reason: IdCheck)

  /** Parsing a URL drops the default port of its scheme. */
  function NormalPort(scheme: string, port: Option<nat>): Option<nat> {
    if (scheme == "https" && port == Some(443)) || (scheme == "http" && port == Some(80)) then None else port
  }

  function SharedInboxOf(s: Settings, follower: Follower): Option<Url> {
    if follower.actor.None? || follower.actor.value.DomainName().None? then None
    else
      var u := follower.actor.value;
      Some(Url(s.ProtocolString(), u.host, NormalPort(s.ProtocolString(), u.port), "/inbox"))
  }

  function RemoteInboxes(s: Settings, followers: seq<Follower>): seq<Url> {
    if followers == [] then []
    else
      var inbox := SharedInboxOf(s, followers[0]);
      (if !followers[0].userLocal && inbox.Some? then [inbox.value] else []) + RemoteInboxes(s, followers[1..])
  }

  function GetFollowerInboxes(s: Settings, followers: seq<Follower>): seq<Url> {
    Unique(Filter(RemoteInboxes(s, followers), inbox => IsValid(s, inbox)))
  }

  function FanOut(s: Settings, followers: seq<Follower>): seq<Url> {
    var inboxes := Unique(GetFollowerInboxes(s, followers));
    var elsewhere := Filter(inboxes, (inbox: Url) => inbox.HostStr() != Some(s.hostname));
    Filter(elsewhere, inbox => IsValid(s, inbox))
  }

  function TasksFor(activity: string, actor: Actor, inboxes: seq<Url>): seq<SendActivityTask>
    requires actor.privateKey.Some?
  {
    seq(|inboxes|, i requires 0 <= i < |inboxes| =>
        SendActivityTask(activity, inboxes[i], actor.id, actor.privateKey.value))
  }

  /** One task more for each inbox, in order, with the activity and the name and key of its sender. */
  ghost predicate AreTasks(before: seq<SendActivityTask>, after: seq<SendActivityTask>, json: string, actor: Actor,
                           inboxes: seq<Url>) {
    && before <= after && |after| == |before| + |inboxes|
    && forall i :: 0 <= i < |inboxes| ==>
         var task := after[|before| + i];
         task.activity == json && task.inbox == inboxes[i] && task.actor == actor.id
           && Some(task.privateKey) == actor.privateKey
  }

  class Sender {
    const settings: Settings
    const activities: ActivityTable
    var tasks: seq<SendActivityTask>

    constructor (settings: Settings, activities: ActivityTable)
      ensures this.settings == settings && this.activities == activities && tasks == []
    {
      this.settings, this.activities, tasks := settings, activities, [];
    }

    /** `accepts(i)` says whether the job queue takes the i-th task of this call. */
    method SendActivityInternal(activity: Outgoing, actor: Actor, inboxes: seq<Url>, insertIntoDb: bool,
                                sensitive: bool,
                                accepts: nat -> bool)
      returns (r: Result<(), SendError>)
      modifies this, activities
      ensures !settings.federationEnabled || inboxes == [] ==>
                r == Success(()) && tasks == old(tasks) && activities.rows == old(activities.rows)
      ensures r.Success? <==>
                || !settings.federationEnabled || inboxes == []
                || ((insertIntoDb ==> activity.id.Some?) && actor.privateKey.Some?
                    && forall i :: 0 <= i < |inboxes| ==> accepts(i))
      ensures settings.federationEnabled && inboxes != [] && r.Success? ==>
                AreTasks(old(tasks), tasks, activity.json, actor, inboxes)
      ensures settings.federationEnabled && inboxes != [] && r.Success? ==>
                && (insertIntoDb ==> activity.id.Some?)
                && actor.privateKey.Some?
                && tasks == old(tasks) + TasksFor(activity.json, actor, inboxes)
                && activities.rows == old(activities.rows)
                   + (if insertIntoDb then [ActivityRow(activity.id.value, true, sensitive)] else [])
      ensures r.Failure? ==> old(tasks) <= tasks && |tasks| < |old(tasks)| + |inboxes|
      ensures r.Failure? ==>
                activities.rows == old(activities.rows)
                + (if insertIntoDb && activity.id.Some? then [ActivityRow(activity.id.value, true, sensitive)] else [])
    {
      if !settings.federationEnabled || inboxes == [] {
        return Success(());
      }
      if insertIntoDb {
        if activity.id.None? {
          return Failure(NoActivityId);
        }
        activities.Insert(activity.id.value, true, sensitive);
      }
      for i := 0 to |inboxes|
        invariant i > 0 ==> actor.privateKey.Some?
        invariant forall k :: 0 <= k < i ==> accepts(k)
        invariant |tasks| == |old(tasks)| + i && old(tasks) <= tasks
        invariant i > 0 ==> tasks == old(tasks) + TasksFor(activity.json, actor, inboxes[..i])
        invariant activities.rows == old(activities.rows)
          + (if insertIntoDb then [ActivityRow(activity.id.value, true, sensitive)] else [])
      {
        if actor.privateKey.None? {
          return Failure(NoPrivateKey);
        }
        if !accepts(i) {
          return Failure(QueueRefused);
        }
        tasks := tasks + [SendActivityTask(activity.json, inboxes[i], actor.id, actor.privateKey.value)];
        assert TasksFor(activity.json, actor, inboxes[..i + 1]) == TasksFor(activity.json, actor, inboxes[..i])
          + [tasks[|tasks| - 1]];
      }
      assert inboxes[..|inboxes|] == inboxes;
      r := Success(());
    }

    method SendToCommunityFollowers(activity: Outgoing, community: Actor, followers: seq<Follower>,
                                    accepts: nat -> bool)
      returns (r: Result<(), SendError>)
      modifies this, activities
      ensures settings.federationEnabled && r.Success? && FanOut(settings, followers) != [] ==>
                && activity.id.Some? && community.privateKey.Some?
                && tasks == old(tasks) + TasksFor(activity.json, community, FanOut(settings, followers))
                && activities.rows == old(activities.rows) + [ActivityRow(activity.id.value, true, false)]
      ensures !settings.federationEnabled || FanOut(settings, followers) == [] ==>
                r == Success(()) && tasks == old(tasks) && activities.rows == old(activities.rows)
      ensures settings.federationEnabled && activity.id.Some? && community.privateKey.Some?
              && (forall i :: accepts(i)) ==>
                r.Success?
      ensures settings.federationEnabled && r.Success? ==>
                exists inboxes: seq<Url> ::
                  && NoDuplicates(inboxes) && (forall inbox :: inbox in inboxes <==> Wanted(settings, followers, inbox))
                  && AreTasks(old(tasks), tasks, activity.json, community, inboxes)
    {
      var followerInboxes := FanOut(settings, followers);
      r := SendActivityInternal(activity, community, followerInboxes, true, false, accepts);
      FanOutIsExact(settings, followers);
    }

    /** From a local user to a remote community: one delivery to its shared inbox, and a row in the log. */
    method SendToRemoteCommunity(activity: Outgoing, creator: Actor, inbox: Url, accepts: nat -> bool)
      returns (r: Result<(), SendError>)
      modifies this, activities
      ensures settings.federationEnabled && r.Success? ==>
                && IsValid(settings, inbox) && activity.id.Some? && creator.privateKey.Some?
                && tasks == old(tasks) + TasksFor(activity.json, creator, [inbox])
                && activities.rows == old(activities.rows) + [ActivityRow(activity.id.value, true, false)]
      ensures IsValid(settings, inbox) ==>
                (r.Success? <==> !settings.federationEnabled
                                 || (activity.id.Some? && creator.privateKey.Some? && accepts(0)))
      ensures settings.federationEnabled && r.Success? ==> AreTasks(old(tasks), tasks, activity.json, creator, [inbox])
      ensures !IsValid(settings, inbox) ==> r.Failure? && tasks == old(tasks) && activities.rows == old(activities.rows)
    {
      if !IsValid(settings, inbox) {
        return Failure(InvalidInbox(CheckIsApubIdValid(settings, inbox)));
      }
      r := SendActivityInternal(activity, creator, [inbox], true, false, accepts);
    }
  }

  /** The inbox of the follower's instance: its host, at its port unless that is the default one of our own scheme. */
  ghost predicate IsSharedInbox(s: Settings, f: Follower, inbox: Url) {
    && f.actor.Some? && f.actor.value.host.Domain?
    && inbox.host == f.actor.value.host && inbox.path == "/inbox"
    && inbox.scheme == (if s.tlsEnabled then "https" else "http")
    && var default_ := if s.tlsEnabled then 443 else 80;
       inbox.port == if f.actor.value.port == Some(default_) then None else f.actor.value.port
  }

  lemma SharedInboxIs(s: Settings, f: Follower, inbox: Url)
    ensures SharedInboxOf(s, f) == Some(inbox) <==> IsSharedInbox(s, f, inbox)
  {
  }

  /** `inbox` belongs to the instance of a remote follower, is admitted, and is not at the configured host name. */
  ghost predicate Wanted(s: Settings, followers: seq<Follower>, inbox: Url) {
    && (exists f :: f in followers && !f.userLocal && IsSharedInbox(s, f, inbox))
    && IsValid(s, inbox)
    && inbox.host.name != s.hostname
  }

  lemma {:induction false} RemoteInboxesAre(s: Settings, followers: seq<Follower>, inbox: Url)
    ensures inbox in RemoteInboxes(s, followers)
            <==> exists f :: f in followers && !f.userLocal && SharedInboxOf(s, f) == Some(inbox)
  {
    if followers != [] {
      RemoteInboxesAre(s, followers[1..], inbox);
      assert followers == [followers[0]] + followers[1..];
      if inbox in RemoteInboxes(s, followers[1..]) {
        var f :| f in followers[1..] && !f.userLocal && SharedInboxOf(s, f) == Some(inbox);
        assert f in followers;
      }
    }
  }

  /** Every wanted inbox is served exactly once, and no other one is. */
  lemma FanOutIsExact(s: Settings, followers: seq<Follower>)
    ensures forall inbox :: inbox in FanOut(s, followers) <==> Wanted(s, followers, inbox)
    ensures NoDuplicates(FanOut(s, followers))
  {
    forall inbox
      ensures inbox in FanOut(s, followers) <==> Wanted(s, followers, inbox)
    {
      RemoteInboxesAre(s, followers, inbox);
      forall f ensures SharedInboxOf(s, f) == Some(inbox) <==> IsSharedInbox(s, f, inbox) {
        SharedInboxIs(s, f, inbox);
      }
    }
    var inboxes := Unique(GetFollowerInboxes(s, followers));
    FilterKeepsDistinct(inboxes, (inbox: Url) => inbox.HostStr() != Some(s.hostname));
    var elsewhere := Filter(inboxes, (inbox: Url) => inbox.HostStr() != Some(s.hostname));
    FilterKeepsDistinct(elsewhere, inbox => IsValid(s, inbox));
  }

  /**
   The filter for the own host compares with the configured name, port included. It works for every
   list of followers exactly when that name has no port (or no inbox of the own host is acceptable).
   */
  lemma OwnHostSkippedIff(s: Settings, own: Url)
    requires own.host.Domain? && own.host.name == s.LocalInstance()
    requires own.scheme == s.ProtocolString() && own.port == NormalPort(own.scheme, own.port) && own.path == "/inbox"
    ensures (forall followers :: own !in FanOut(s, followers)) <==> ':' !in s.hostname || !IsValid(s, own)
  {
    forall followers
      ensures own in FanOut(s, followers) <==> Wanted(s, followers, own)
    {
      FanOutIsExact(s, followers);
    }
    var f := Follower(Some(own), false);
    assert IsSharedInbox(s, f, own);
    assert f in [f];
    assert ':' in s.hostname && IsValid(s, own) ==> own in FanOut(s, [f]);
  }
}

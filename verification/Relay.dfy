/**
 A vote on its way to a third instance: the voter's instance sends it to the community's, and that one wraps it in an
 Announce to its followers, the voter's instance among them (lemmy_apub/src/inbox/community_inbox.rs,
 lemmy_apub/src/inbox/user_inbox.rs).

 Both channels may redeliver. A ban is asked about by the community's instance alone, and an activity that the
 community's instance has no use for, a Dislike where downvotes are off, is passed on all the same.
 */
module Relay {
  import opened Wrappers
  import opened Replication
  import opened Votes

  /** `inner` is the id of the vote's activity: its position among those that the voter's instance has sent. */
  datatype Announcement = Announcement(inner: nat, message: Message)

  /** `voter` has the community's instance as receiver; `third` carries that one's Announces. */
  datatype System = System(voter: VoteLink, third: Link<(), Rows, Announcement>)

  datatype Config = Config(local: Rules, admitted: bool, community: Rules, third: Rules)

  datatype Event = Cast(vote: Vote) | ToCommunity(i: nat) | ToThird(i: nat) | BackToVoter(i: nat)

  /** An Announce is not checked against the receiver's own bans. */
  function AnnounceApply(rules: Rules): (Rows, Announcement) -> Rows {
    (rows: Rows, a: Announcement) => Received(rules.(banned := {}), rows, a.message)
  }

  function NoAct(): ((), ()) -> ((), Option<Announcement>) {
    (s: (), a: ()) => (s, None)
  }

  /** The activity at `i` is delivered for the first time. */
  predicate FirstDelivery(l: VoteLink, i: nat) {
    i < |l.sent| && i <= l.next && i !in l.known
  }

  function Step(config: Config, sys: System, e: Event): System {
    var act, apply := LocalAct(config.local, config.admitted), RemoteApply(config.community);
    match e
    case Cast(v) => sys.(voter := LinkStep(act, apply, sys.voter, Act(v)))
    case ToCommunity(i) =>
      var voter := LinkStep(act, apply, sys.voter, Deliver(i));
      if !FirstDelivery(sys.voter, i) || IsBanned(config.community, sys.voter.sent[i]) then sys.(voter := voter)
      else System(voter, sys.third.(sent := sys.third.sent + [Announcement(i, sys.voter.sent[i])]))
    case ToThird(i) => sys.(third := LinkStep(NoAct(), AnnounceApply(config.third), sys.third, Deliver(i)))
    case BackToVoter(i) =>
      if i >= |sys.third.sent| then sys
      else
        var a := sys.third.sent[i];
        // whatever was sent is in the log
        if a.inner < |sys.voter.sent| then sys
        else sys.(voter := sys.voter.(sender := AnnounceApply(config.local)(sys.voter.sender, a)))
  }

  predicate IsBanned(rules: Rules, m: Message) {
    (m.user, m.post) in rules.banned
  }

  function Run(config: Config, sys: System, es: seq<Event>): System
    decreases es
  {
    if es == [] then sys else Run(config, Step(config, sys, es[0]), es[1..])
  }

  /** Every Announce is around something that the voter's instance has sent. */
  ghost predicate SystemOk(sys: System) {
    && LinkOk(sys.voter) && LinkOk(sys.third)
    && forall a :: a in sys.third.sent ==> a.inner < |sys.voter.sent|
  }

  /** The third instance is a replica with its own downvote switch and the community's bans. */
  function Via(config: Config): Rules {
    Rules(config.third.enableDownvotes, config.community.banned)
  }

  /** What the third instance will hold once everything under way on both channels has arrived. */
  function Outcome(config: Config, sys: System): Rows
    requires LinkOk(sys.voter) && LinkOk(sys.third)
  {
    Fold(RemoteApply(Via(config)), Replay(AnnounceApply(config.third), sys.third), sys.voter.sent[sys.voter.next..])
  }

  lemma CastOutcome(config: Config, sys: System, v: Vote)
    requires SystemOk(sys)
    ensures var n := Step(config, sys, Cast(v));
            var m := LocalAct(config.local, config.admitted)(sys.voter.sender, v).1;
            && SystemOk(n)
            && n.voter.sender == LocalAct(config.local, config.admitted)(sys.voter.sender, v).0
            && Outcome(config, n) == if m.Some? then RemoteApply(Via(config))(Outcome(config, sys), m.value)
               else Outcome(config, sys)
  {
    var n := Step(config, sys, Cast(v));
    StepReplay(LocalAct(config.local, config.admitted), RemoteApply(config.community), sys.voter, Act(v));
    var m := LocalAct(config.local, config.admitted)(sys.voter.sender, v).1;
    if m.Some? {
      assert n.voter.sent[n.voter.next..] == sys.voter.sent[sys.voter.next..] + [m.value];
      FoldLast(RemoteApply(Via(config)), Replay(AnnounceApply(config.third), sys.third),
               sys.voter.sent[sys.voter.next..], m.value);
    }
  }

  lemma AppliedVia(config: Config, rows: Rows, i: nat, m: Message)
    ensures RemoteApply(Via(config))(rows, m)
            == if IsBanned(config.community, m) then rows else AnnounceApply(config.third)(rows, Announcement(i, m))
  {
    assert RemoteApply(Via(config))(rows, m) == Received(Via(config), rows, m);
    assert AnnounceApply(config.third)(rows, Announcement(i, m)) == Received(config.third.(banned := {}), rows, m);
  }

  /** The community's instance passes on what is not banned there, so the outcome does not change. */
  lemma ToCommunityOutcome(config: Config, sys: System, i: nat)
    requires SystemOk(sys)
    ensures var n := Step(config, sys, ToCommunity(i));
            SystemOk(n) && n.voter.sender == sys.voter.sender && Outcome(config, n) == Outcome(config, sys)
  {
    var n := Step(config, sys, ToCommunity(i));
    StepReplay(LocalAct(config.local, config.admitted), RemoteApply(config.community), sys.voter, Deliver(i));
    if FirstDelivery(sys.voter, i) {
      var m, rest := sys.voter.sent[i], n.voter.sent[n.voter.next..];
      var reached := Replay(AnnounceApply(config.third), sys.third);
      assert i == sys.voter.next;
      assert sys.voter.sent[i..] == [m] + rest;
      FoldHead(RemoteApply(Via(config)), reached, m, rest);
      AppliedVia(config, reached, i, m);
      ReplayAppend(AnnounceApply(config.third), sys.third, Announcement(i, m));
    }
  }

  lemma FoldHead<T, M>(apply: (T, M) -> T, t: T, m: M, ms: seq<M>)
    ensures Fold(apply, t, [m] + ms) == Fold(apply, apply(t, m), ms)
  {
    assert ([m] + ms)[1..] == ms;
  }

  lemma OtherStepsOutcome(config: Config, sys: System, e: Event)
    requires SystemOk(sys) && (e.ToThird? || e.BackToVoter?)
    ensures var n := Step(config, sys, e);
            SystemOk(n) && n.voter.sender == sys.voter.sender && Outcome(config, n) == Outcome(config, sys)
  {
    if e.ToThird? {
      StepReplay(NoAct(), AnnounceApply(config.third), sys.third, Deliver(e.i));
    }
  }

  /**
   In every run, with both channels redelivering and the Announces also coming back to the voter's instance, what is
   under way turns the third instance's vote into the voter's, under the condition for a direct channel to a replica
   with the community's bans. Whether the community's instance has downvotes does not matter.
   */
  lemma {:induction false} RelayedVotesConverge(config: Config, sys: System, es: seq<Event>, user: UserId, post: PostId)
    requires SystemOk(sys) && CanAgree(config.local, Via(config), config.admitted, user, post)
    requires SameVote(sys.voter.sender, Outcome(config, sys), user, post)
    ensures var n := Run(config, sys, es);
            && SystemOk(n) && SameVote(n.voter.sender, Outcome(config, n), user, post)
            && (n.voter.next == |n.voter.sent| && n.third.next == |n.third.sent|
                ==> SameVote(n.voter.sender, n.third.receiver, user, post))
    decreases es
  {
    if es == [] {
      assert sys.voter.next == |sys.voter.sent| ==> sys.voter.sent[sys.voter.next..] == [];
      assert sys.third.next == |sys.third.sent| ==> sys.third.sent[sys.third.next..] == [];
    } else {
      match es[0] {
        case Cast(v) =>
          CastOutcome(config, sys, v);
          var reached := Outcome(config, sys);
          if (v.user, v.post) != (user, post) || Refused(config.local, v) {
            OtherActKeepsVotes(config.local, Via(config), config.admitted, sys.voter.sender, reached, v, user, post);
          } else {
            ActKeepsSameVote(config.local, Via(config), sys.voter.sender, reached, v, user, post);
          }
        case ToCommunity(i) => ToCommunityOutcome(config, sys, i);
        case ToThird(_) => OtherStepsOutcome(config, sys, es[0]);
        case BackToVoter(_) => OtherStepsOutcome(config, sys, es[0]);
      }
      RelayedVotesConverge(config, Step(config, sys, es[0]), es[1..], user, post);
    }
  }

  /** Deliveries alone drain both channels, and the third instance then holds the outcome. */
  lemma {:induction false} RelayDrains(config: Config, sys: System) returns (es: seq<Event>)
    requires SystemOk(sys)
    ensures forall e :: e in es ==> e.ToCommunity? || e.ToThird?
    ensures var n := Run(config, sys, es);
            && n.voter.next == |n.voter.sent| && n.third.next == |n.third.sent|
            && n.voter.sender == sys.voter.sender && n.third.receiver == Outcome(config, sys)
    decreases |sys.voter.sent| - sys.voter.next, |sys.third.sent| - sys.third.next
  {
    if sys.voter.next < |sys.voter.sent| {
      var e := ToCommunity(sys.voter.next);
      ToCommunityOutcome(config, sys, sys.voter.next);
      var rest := RelayDrains(config, Step(config, sys, e));
      es := [e] + rest;
      assert es[1..] == rest;
    } else if sys.third.next < |sys.third.sent| {
      var e := ToThird(sys.third.next);
      OtherStepsOutcome(config, sys, e);
      var rest := RelayDrains(config, Step(config, sys, e));
      es := [e] + rest;
      assert es[1..] == rest;
    } else {
      es := [];
      assert sys.voter.sent[sys.voter.next..] == [] && sys.third.sent[sys.third.next..] == [];
    }
  }
}

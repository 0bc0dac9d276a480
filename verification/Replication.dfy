/**
 Two instances and the activities that one sends to the other.

 Every action of the sender may put one activity into the channel. The channel delivers an activity for
 the first time only after all earlier ones, and may deliver it again at any time after that; the
 receiver's log of known ids makes it act on the first delivery alone (ActivityPub, section 5.2).
 */
module Replication {
  import opened Wrappers

  /** `next` is the first activity that has not been delivered yet; `known` is the receiver's log. */
  datatype Link<S, T, M> = Link(sender: S, sent: seq<M>, receiver: T, known: set<nat>, next: nat)

  datatype Event<A> = Act(action: A) | Deliver(i: nat)

  function LinkStep<S, T, M, A>(act: (S, A) -> (S, Option<M>), apply: (T, M) -> T, l: Link<S, T, M>, e: Event<A>):
    Link<S, T, M> {
    match e
    case Act(a) =>
      var (sender, message) := act(l.sender, a);
      l.(sender := sender, sent := if message.Some? then l.sent + [message.value] else l.sent)
    case Deliver(i) =>
      if i >= |l.sent| || i > l.next || i in l.known then l
      else l.(receiver := apply(l.receiver, l.sent[i]), known := l.known + {i}, next := i + 1)
  }

  function RunLink<S, T, M, A>(act: (S, A) -> (S, Option<M>), apply: (T, M) -> T, l: Link<S, T, M>, es: seq<Event<A>>):
    Link<S, T, M>
    decreases es
  {
    if es == [] then l else RunLink(act, apply, LinkStep(act, apply, l, es[0]), es[1..])
  }

  /** The activities in the log are exactly the ones before `next`. */
  ghost predicate LinkOk<S, T, M>(l: Link<S, T, M>) {
    l.next <= |l.sent| && forall i: nat :: i in l.known <==> i < l.next
  }

  function Fold<T, M>(apply: (T, M) -> T, t: T, ms: seq<M>): T
    decreases ms
  {
    if ms == [] then t else Fold(apply, apply(t, ms[0]), ms[1..])
  }

  lemma {:induction false} FoldLast<T, M>(apply: (T, M) -> T, t: T, ms: seq<M>, m: M)
    ensures Fold(apply, t, ms + [m]) == apply(Fold(apply, t, ms), m)
    decreases ms
  {
    if ms == [] {
      assert [m][1..] == [];
    } else {
      assert (ms + [m])[1..] == ms[1..] + [m];
      FoldLast(apply, apply(t, ms[0]), ms[1..], m);
    }
  }

  /** What the receiver will hold once everything under way has arrived. */
  function Replay<S, T, M>(apply: (T, M) -> T, l: Link<S, T, M>): T
    requires l.next <= |l.sent|
  {
    Fold(apply, l.receiver, l.sent[l.next..])
  }

  lemma ReplayAppend<S, T, M>(apply: (T, M) -> T, l: Link<S, T, M>, m: M)
    requires LinkOk(l)
    ensures var n := l.(sent := l.sent + [m]); LinkOk(n) && Replay(apply, n) == apply(Replay(apply, l), m)
  {
    var n := l.(sent := l.sent + [m]);
    assert n.sent[n.next..] == l.sent[l.next..] + [m];
    FoldLast(apply, l.receiver, l.sent[l.next..], m);
  }

  /** Deliveries, repeated or not, do not change the outcome; an action changes it by its own activity. */
  lemma StepReplay<S, T, M, A>(act: (S, A) -> (S, Option<M>), apply: (T, M) -> T, l: Link<S, T, M>, e: Event<A>)
    requires LinkOk(l)
    ensures var n := LinkStep(act, apply, l, e);
            && LinkOk(n)
            && (e.Deliver? ==> n.sender == l.sender && Replay(apply, n) == Replay(apply, l))
            && (e.Act? ==> n.sender == act(l.sender, e.action).0
                           && Replay(apply, n) == var m := act(l.sender, e.action).1;
                                                  if m.Some? then apply(Replay(apply, l), m.value)
                                                    else Replay(apply, l))
  {
    var n := LinkStep(act, apply, l, e);
    match e
    case Deliver(i) =>
      if n != l {
        assert i == l.next;
        assert l.sent[l.next..][1..] == n.sent[n.next..];
      }
    case Act(a) =>
      var m := act(l.sender, a).1;
      if m.Some? {
        ReplayAppend(apply, l, m.value);
        assert n == l.(sender := n.sender).(sent := l.sent + [m.value]);
      }
  }

  /** The next activity is applied when it is delivered; one that comes again, or too early, does nothing. */
  lemma DeliverIsInOrder<S, T, M, A>(act: (S, A) -> (S, Option<M>), apply: (T, M) -> T, l: Link<S, T, M>, i: nat)
    requires LinkOk(l)
    ensures LinkStep(act, apply, l, Deliver(i))
            == if i == l.next && i < |l.sent|
               then Link(l.sender, l.sent, apply(l.receiver, l.sent[i]), l.known + {i}, i + 1)
               else l
  {
  }

  function Deliveries<A>(from: nat, to: nat): seq<Event<A>>
    requires from <= to
  {
    seq(to - from, k requires 0 <= k < to - from => Deliver(from + k))
  }

  /** Delivering what is under way drains the channel and leaves the receiver with the outcome. */
  lemma {:induction false} DeliveriesDrain<S, T, M, A>(act: (S, A) -> (S, Option<M>), apply: (T, M) -> T,
                                                       l: Link<S, T, M>)
    requires LinkOk(l)
    ensures var n := RunLink(act, apply, l, Deliveries<A>(l.next, |l.sent|));
            && LinkOk(n) && n.next == |n.sent| && n.sent == l.sent && n.sender == l.sender
               && n.receiver == Replay(apply, l)
    decreases |l.sent| - l.next
  {
    if l.next < |l.sent| {
      var es := Deliveries<A>(l.next, |l.sent|);
      var next := LinkStep(act, apply, l, es[0]);
      StepReplay(act, apply, l, es[0]);
      assert es[1..] == Deliveries<A>(next.next, |next.sent|);
      DeliveriesDrain(act, apply, next);
    } else {
      assert l.sent[l.next..] == [];
    }
  }
}

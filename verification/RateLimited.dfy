/**
 `RateLimited::wrap` of lemmy_rate_limit/src/lib.rs: one lock section before the wrapped future and one
 after it, with any other call's sections in between.

 A run is a sequence of lock sections over one shared limiter. `Step` gives the meaning of a section;
 the class performs the sections on the limiter object and is proved to follow it.
 */
module RateLimited {
  import opened RateLimiter
  import opened Wrappers

  /** Message and Image pay before the future runs; Post and Register pay after it has succeeded. */
  predicate PaysFirst(type_: RateLimitType) {
    type_ == Message || type_ == Image
  }

  /** The readings of the system clock inside one lock section. */
  datatype Clock = Clock(created: RateLimitType -> real, now: real)

  datatype Phase = Running | Finished(ok: bool)

  /** `paid` keeps the time at which the call took a token out of its bucket, if it did. */
  datatype Call = Call(key: Key, phase: Phase, paid: Option<real>)

  /** The shared limiter and every call that has passed its first section. */
  datatype System = System(store: Store, calls: map<nat, Call>)

  /** Lock sections: the one before the future, and the one after it, given the future's result. */
  datatype Section =
    | Before(id: nat, key: Key, clock: Clock)
    | After(id: nat, innerOk: bool, clock: Clock)

  function BeforeRequest(key: Key, clock: Clock): Request {
    Request(key, !PaysFirst(key.0), clock.created, clock.now)
  }

  function AfterRequest(key: Key, clock: Clock): Request {
    Request(key, false, clock.created, clock.now)
  }

  /** The limiter call that a section makes, if any. */
  function Requests(sys: System, e: Section): seq<Request> {
    match e
    case Before(id, key, clock) =>
      if id in sys.calls then [] else [BeforeRequest(key, clock)]
    case After(id, innerOk, clock) =>
      if id in sys.calls && sys.calls[id].phase == Running && innerOk && !PaysFirst(sys.calls[id].key.0)
      then [AfterRequest(sys.calls[id].key, clock)] else []
  }

  /** Sections that no call can be at (a used id, or a call that is not running) do nothing. */
  function Step(sys: System, e: Section, limits: Limits): System {
    var reqs := Requests(sys, e);
    match e
    case Before(id, key, clock) =>
      if reqs == [] then sys
      else
        var reply := Serve(sys.store, reqs[0], limits(key.0));
        System(reply.store, sys.calls[id := Started(key, clock.now, reply.verdict == Admitted)])
    case After(id, innerOk, clock) =>
      if id !in sys.calls || sys.calls[id].phase != Running then sys
      else
        var call := sys.calls[id];
        if reqs == [] then sys.(calls := sys.calls[id := call.(phase := Finished(innerOk))])
        else
          var reply := Serve(sys.store, reqs[0], limits(call.key.0));
          System(reply.store, sys.calls[id := Ended(call, clock.now, reply.verdict == Admitted)])
  }

  function Started(key: Key, now: real, goOn: bool): Call {
    Call(key, if goOn then Running else Finished(false), if goOn && PaysFirst(key.0) then Some(now) else None)
  }

  function Ended(call: Call, now: real, paid: bool): Call {
    Call(call.key, Finished(paid), if paid then Some(now) else call.paid)
  }

  function Run(sys: System, es: seq<Section>, limits: Limits): System
    decreases es
  {
    if es == [] then sys else Run(Step(sys, es[0], limits), es[1..], limits)
  }

  // ---------- the source's form ----------

  class Wrapper {
    const rateLimiter: RateLimiter
    const type_: RateLimitType

    constructor (rateLimiter: RateLimiter, type_: RateLimitType)
      ensures this.rateLimiter == rateLimiter && this.type_ == type_
    {
      this.rateLimiter, this.type_ := rateLimiter, type_;
    }

    /** The section before the future: does the call go on? Post and Register calls only check, the others consume. */
    method LockBefore(ip: IPAddr, limits: Limits, clock: Clock) returns (goOn: bool, ghost verdict: Verdict)
      requires rateLimiter.Valid()
      modifies rateLimiter
      ensures rateLimiter.Valid()
      ensures goOn == (verdict == Admitted)
      ensures IsServed(old(rateLimiter.contents), (type_, ip), limits(type_), type_ in {Post, Register},
                       clock.created, clock.now, rateLimiter.contents, verdict)
      ensures forall id, calls: map<nat, Call> | id !in calls ::
                Step(System(old(rateLimiter.contents), calls), Before(id, (type_, ip), clock), limits)
                == System(rateLimiter.contents, calls[id := Started((type_, ip), clock.now, goOn)])
      ensures type_ in {Post, Register} && StoreOk(old(rateLimiter.contents))
              ==> KeepsTokens(old(rateLimiter.contents), rateLimiter.contents, (type_, ip))
    {
      var found: Verdict;
      match type_ {
        case Message | Image =>
          found := rateLimiter.CheckRateLimitFull(type_, ip, limits(type_), false, clock.created, clock.now);
        case Post | Register =>
          found := rateLimiter.CheckRateLimitFull(type_, ip, limits(type_), true, clock.created, clock.now);
      }
      goOn, verdict := found == Admitted, found;
      ghost var r := BeforeRequest((type_, ip), clock);
      if KeepsTokensFor(old(rateLimiter.contents), r) {
        CheckOnlyKeepsTokens(old(rateLimiter.contents), r, limits(type_));
      }
    }

    /**
     The section after the future: what the caller of `wrap` gets. It consumes for Post and Register calls whose future
     has succeeded, and leaves the limiter alone otherwise.
     */
    method LockAfter(ip: IPAddr, limits: Limits, innerOk: bool, clock: Clock) returns (ok: bool, ghost verdict: Verdict)
      requires rateLimiter.Valid()
      modifies rateLimiter
      ensures rateLimiter.Valid()
      ensures if innerOk && type_ in {Post, Register}
              then
                && ok == (verdict == Admitted)
                && IsServed(old(rateLimiter.contents), (type_, ip), limits(type_), false,
                            clock.created, clock.now, rateLimiter.contents, verdict)
              else rateLimiter.contents == old(rateLimiter.contents) && ok == innerOk
      ensures forall id, calls: map<nat, Call> |
                id in calls && calls[id].key == (type_, ip) && calls[id].phase == Running ::
                Step(System(old(rateLimiter.contents), calls), After(id, innerOk, clock), limits)
                == System(rateLimiter.contents,
                          calls[id := if innerOk && type_ in {Post, Register} then Ended(calls[id], clock.now, ok)
                                      else calls[id].(phase := Finished(ok))])
    {
      ok, verdict := innerOk, Admitted;
      if innerOk {
        match type_ {
          case Post | Register =>
            var found := rateLimiter.CheckRateLimitFull(type_, ip, limits(type_), false, clock.created, clock.now);
            ok, verdict := found == Admitted, found;
          case Message | Image =>
        }
      }
    }

    /**
     A call that nothing overlaps. It runs the future exactly when it goes on. Also tells what the two sections found,
     and the limiter between them.
     */
    method Wrap(ip: IPAddr, limits: Limits, innerOk: bool, before: Clock, after: Clock)
      returns (ran: bool, ok: bool, ghost first: Verdict, ghost between: Store, ghost last: Verdict)
      requires rateLimiter.Valid()
      modifies rateLimiter
      ensures rateLimiter.Valid()
      ensures ran == (first == Admitted)
      ensures IsServed(old(rateLimiter.contents), (type_, ip), limits(type_), type_ in {Post, Register},
                       before.created, before.now, between, first)
      ensures if ran && innerOk && type_ in {Post, Register}
              then
                && ok == (last == Admitted)
                && IsServed(between, (type_, ip), limits(type_), false, after.created, after.now, rateLimiter.contents,
                            last)
              else rateLimiter.contents == between && ok == (ran && innerOk)
      ensures type_ in {Post, Register} && !innerOk && StoreOk(old(rateLimiter.contents))
              ==> KeepsTokens(old(rateLimiter.contents), rateLimiter.contents, (type_, ip))
      ensures StoreOk(old(rateLimiter.contents)) && ran && innerOk && before.now <= after.now ==> ok
    {
      ghost var start := System(rateLimiter.contents, map[]);
      ok, last := false, Admitted;
      ran, first := LockBefore(ip, limits, before);
      between := rateLimiter.contents;
      if ran {
        ok, last := LockAfter(ip, limits, innerOk, after);
        if innerOk && before.now <= after.now && StoreOk(start.store) {
          QuietCallAccepted(start, 0, (type_, ip), before, [], after, limits);
        }
      }
    }
  }

  /** A used bucket holds no fewer tokens than before. */
  ghost predicate KeepsTokens(before: Store, after: Store, key: Key) {
    key in before && before[key].allowance != -2.0 ==> key in after && after[key].allowance >= before[key].allowance
  }

  ghost predicate KeepsTokensFor(before: Store, r: Request) {
    StoreOk(before) && r.checkOnly && r.key in before && before[r.key].allowance != -2.0
  }

  // ---------- properties of every interleaving ----------

  function AllRequests(sys: System, es: seq<Section>, limits: Limits): seq<Request>
    decreases es
  {
    if es == [] then [] else Requests(sys, es[0]) + AllRequests(Step(sys, es[0], limits), es[1..], limits)
  }

  /** Success means a token was taken; a call that pays last took one only if it succeeded. */
  ghost predicate CallOk(c: Call) {
    && (c.phase == Finished(true) ==> c.paid.Some?)
    && (c.key.0 in {Message, Image} && c.phase == Running ==> c.paid.Some?)
    && (c.key.0 in {Post, Register} && c.paid.Some? ==> c.phase == Finished(true))
  }

  ghost predicate SystemOk(sys: System) {
    StoreOk(sys.store) && forall id :: id in sys.calls ==> CallOk(sys.calls[id])
  }

  ghost predicate PaidBetween(sys: System, id: nat, key: Key, from: real, to: real) {
    id in sys.calls && sys.calls[id].key == key && sys.calls[id].paid.Some? && from <= sys.calls[id].paid.value <= to
  }

  ghost function Payers(sys: System, key: Key, from: real, to: real): set<nat> {
    set id | id in sys.calls && PaidBetween(sys, id, key, from, to)
  }

  lemma StepKeepsOk(sys: System, e: Section, limits: Limits)
    requires SystemOk(sys)
    ensures SystemOk(Step(sys, e, limits))
  {
    var reqs := Requests(sys, e);
    if reqs != [] {
      ServeKeepsOk(sys.store, reqs[0], limits(reqs[0].key.0));
    }
  }

  /**
   The first section, with the types named: it serves a call that only checks for Post and Register and one that
   consumes for Message and Image, and these have paid when they go on.
   */
  lemma FirstSection(sys: System, id: nat, key: Key, clock: Clock, limits: Limits) returns (verdict: Verdict)
    requires id !in sys.calls
    ensures var n := Step(sys, Before(id, key, clock), limits);
            && IsServed(sys.store, key, limits(key.0), key.0 in {Post, Register}, clock.created, clock.now, n.store,
                        verdict)
            && n.calls == sys.calls[id := Call(key, if verdict == Admitted then Running else Finished(false),
                                               if verdict == Admitted && key.0 in {Message, Image}
                                               then Some(clock.now) else None)]
  {
    verdict := Serve(sys.store, BeforeRequest(key, clock), limits(key.0)).verdict;
    ServedInFields(sys.store, BeforeRequest(key, clock), limits(key.0));
  }

  /** The last section of a Message or Image call, and of any call whose future has failed, touches no bucket. */
  lemma LastSectionIsFree(sys: System, id: nat, innerOk: bool, clock: Clock, limits: Limits)
    requires id in sys.calls && sys.calls[id].phase == Running
    requires sys.calls[id].key.0 in {Message, Image} || !innerOk
    ensures Step(sys, After(id, innerOk, clock), limits)
            == sys.(calls := sys.calls[id := sys.calls[id].(phase := Finished(innerOk))])
  {
  }

  /** The last section of a Post or Register call whose future has succeeded consumes, and has paid if it succeeds. */
  lemma LastSectionPays(sys: System, id: nat, clock: Clock, limits: Limits) returns (verdict: Verdict)
    requires id in sys.calls && sys.calls[id].phase == Running && sys.calls[id].key.0 in {Post, Register}
    ensures var key, n := sys.calls[id].key, Step(sys, After(id, true, clock), limits);
            && IsServed(sys.store, key, limits(key.0), false, clock.created, clock.now, n.store, verdict)
            && n.calls == sys.calls[id := Call(key, Finished(verdict == Admitted),
                                               if verdict == Admitted then Some(clock.now) else sys.calls[id].paid)]
  {
    var r := AfterRequest(sys.calls[id].key, clock);
    verdict := Serve(sys.store, r, limits(r.key.0)).verdict;
    ServedInFields(sys.store, r, limits(r.key.0));
  }

  /** In every interleaving, Post and Register calls have paid only if they succeed, and whoever succeeds has paid. */
  lemma PaidOnlyOnSuccess(store: Store, es: seq<Section>, limits: Limits, id: nat)
    requires StoreOk(store)
    ensures var calls := Run(System(store, map[]), es, limits).calls;
            id in calls ==>
              && (calls[id].phase == Finished(true) ==> calls[id].paid.Some?)
              && (calls[id].key.0 in {Post, Register} && calls[id].paid.Some? ==> calls[id].phase == Finished(true))
              && (calls[id].key.0 in {Message, Image} && calls[id].phase == Running ==> calls[id].paid.Some?)
  {
    RunPays(System(store, map[]), es, limits, (Message, ""), 0.0, 0.0);
    var end := Run(System(store, map[]), es, limits);
    assert id in end.calls ==> CallOk(end.calls[id]);
  }

  /** The two sections of `Wrap` are a run of the state machine. */
  lemma WrapIsARun(store: Store, key: Key, limits: Limits, innerOk: bool, before: Clock, after: Clock)
    ensures var sys := System(store, map[]);
            Run(sys, [Before(0, key, before), After(0, innerOk, after)], limits)
            == Step(Step(sys, Before(0, key, before), limits), After(0, innerOk, after), limits)
  {
    var mid := Step(System(store, map[]), Before(0, key, before), limits);
    var end := Step(mid, After(0, innerOk, after), limits);
    assert [Before(0, key, before), After(0, innerOk, after)][1..] == [After(0, innerOk, after)];
    assert Run(mid, [After(0, innerOk, after)], limits) == Run(end, [], limits);
  }

  /** A call whose future fails, and that pays last, leaves the limiter exactly as it was. */
  lemma FailedFutureIsFree(sys: System, id: nat, clock: Clock, limits: Limits)
    requires id in sys.calls && sys.calls[id].phase == Running
    ensures Step(sys, After(id, false, clock), limits)
            == sys.(calls := sys.calls[id := sys.calls[id].(phase := Finished(false))])
  {
  }

  ghost predicate OthersStay(a: System, b: System, id: nat) {
    forall i :: i != id ==> (i in a.calls <==> i in b.calls) && (i in a.calls ==> a.calls[i] == b.calls[i])
  }

  lemma OnePayerMore(a: System, b: System, id: nat, key: Key, from: real, to: real)
    requires OthersStay(a, b, id) && !PaidBetween(a, id, key, from, to) && PaidBetween(b, id, key, from, to)
    ensures |Payers(b, key, from, to)| == |Payers(a, key, from, to)| + 1
  {
    assert Payers(b, key, from, to) == Payers(a, key, from, to) + {id};
  }

  lemma SamePayers(a: System, b: System, id: nat, key: Key, from: real, to: real)
    requires OthersStay(a, b, id) && (PaidBetween(a, id, key, from, to) <==> PaidBetween(b, id, key, from, to))
    ensures |Payers(b, key, from, to)| == |Payers(a, key, from, to)|
  {
    assert Payers(b, key, from, to) == Payers(a, key, from, to);
  }

  /** The payers grow by one exactly when the section's limiter call consumes inside the window. */
  lemma StepPays(sys: System, e: Section, limits: Limits, key: Key, from: real, to: real)
    requires SystemOk(sys)
    ensures |Payers(Step(sys, e, limits), key, from, to)|
            == |Payers(sys, key, from, to)| + AdmittedIn(sys.store, Requests(sys, e), limits, key, from, to)
  {
    var reqs := Requests(sys, e);
    var next := Step(sys, e, limits);
    if reqs != [] {
      var r, reply := reqs[0], Serve(sys.store, reqs[0], limits(reqs[0].key.0));
      assert AdmittedIn(reply.store, reqs[1..], limits, key, from, to) == 0;
      if r.key == key && !r.checkOnly && reply.verdict == Admitted && from <= r.now <= to {
        OnePayerMore(sys, next, e.id, key, from, to);
      } else {
        SamePayers(sys, next, e.id, key, from, to);
      }
    } else {
      SamePayers(sys, next, e.id, key, from, to);
    }
  }

  lemma {:induction false} AdmittedInAppend(store: Store, a: seq<Request>, b: seq<Request>, limits: Limits, key: Key,
                                            from: real, to: real)
    ensures AdmittedIn(store, a + b, limits, key, from, to)
            == AdmittedIn(store, a, limits, key, from, to)
              + AdmittedIn(RunStore(store, a, limits), b, limits, key, from, to)
    decreases a
  {
    if a == [] {
      assert a + b == b;
    } else {
      assert (a + b)[1..] == a[1..] + b;
      AdmittedInAppend(Serve(store, a[0], limits(a[0].key.0)).store, a[1..], b, limits, key, from, to);
    }
  }

  /** Whatever the interleaving, the calls that paid are exactly the admissions on the bucket. */
  lemma {:induction false} RunPays(sys: System, es: seq<Section>, limits: Limits, key: Key, from: real, to: real)
    requires SystemOk(sys)
    ensures SystemOk(Run(sys, es, limits))
    ensures |Payers(Run(sys, es, limits), key, from, to)|
            == |Payers(sys, key, from, to)| + AdmittedIn(sys.store, AllRequests(sys, es, limits), limits, key, from, to)
    decreases es
  {
    if es != [] {
      var next := Step(sys, es[0], limits);
      StepKeepsOk(sys, es[0], limits);
      StepPays(sys, es[0], limits, key, from, to);
      assert RunStore(sys.store, Requests(sys, es[0]), limits) == next.store by {
        var reqs := Requests(sys, es[0]);
        if reqs != [] {
          var s1 := Serve(sys.store, reqs[0], limits(reqs[0].key.0)).store;
          assert RunStore(s1, reqs[1..], limits) == s1;
        }
      }
      AdmittedInAppend(sys.store, Requests(sys, es[0]), AllRequests(next, es[1..], limits), limits, key, from, to);
      RunPays(next, es[1..], limits, key, from, to);
    }
  }

  /** The calls on one bucket that return Ok, counted at the moment they pay, obey the rate limit. */
  lemma SuccessesBounded(store: Store, es: seq<Section>, limits: Limits, key: Key, from: real, to: real)
    requires StoreOk(store) && from <= to
    ensures var end := Run(System(store, map[]), es, limits);
            var ok := set id | id in end.calls && end.calls[id].phase == Finished(true)
              && PaidBetween(end, id, key, from, to);
            && FitsWindow(|ok|, limits(key.0).rate, limits(key.0).per, from, to)
            && (forall id :: id in end.calls && end.calls[id].phase == Finished(true) ==> end.calls[id].paid.Some?)
            && (key.0 in {Post, Register} ==> ok == Payers(end, key, from, to))
  {
    var start := System(store, map[]);
    var end := Run(start, es, limits);
    var ok := set id | id in end.calls && end.calls[id].phase == Finished(true) && PaidBetween(end, id, key, from, to);
    RunPays(start, es, limits, key, from, to);
    WindowBound(store, AllRequests(start, es, limits), limits, key, from, to);
    assert Payers(start, key, from, to) == {};
    SubsetSize(ok, Payers(end, key, from, to));
  }

  lemma {:induction false} SubsetSize(a: set<nat>, b: set<nat>)
    requires a <= b
    ensures |a| <= |b|
  {
    if a != {} {
      var x :| x in a;
      SubsetSize(a - {x}, b - {x});
    }
  }

  // ---------- between the two sections of one call ----------

  /** No section of `es` takes a token from `key`, and none reads a clock later than `deadline` on it. */
  ghost predicate Quiet(sys: System, es: seq<Section>, limits: Limits, id: nat, key: Key, deadline: real)
    decreases es
  {
    es != [] ==>
      && es[0].id != id
      && (forall r :: r in Requests(sys, es[0]) && r.key == key ==> r.checkOnly && r.now <= deadline)
      && Quiet(Step(sys, es[0], limits), es[1..], limits, id, key, deadline)
  }

  ghost predicate HasToken(store: Store, key: Key, deadline: real) {
    key in store && store[key].allowance >= 1.0 && store[key].lastChecked <= deadline
  }

  /** A section that takes nothing from the bucket leaves its token there. */
  lemma TokenStays(sys: System, e: Section, limits: Limits, key: Key, deadline: real)
    requires SystemOk(sys) && HasToken(sys.store, key, deadline)
    requires forall r :: r in Requests(sys, e) && r.key == key ==> r.checkOnly && r.now <= deadline
    ensures HasToken(Step(sys, e, limits).store, key, deadline)
  {
    var reqs := Requests(sys, e);
    if reqs != [] {
      var r := reqs[0];
      ServeFrame(sys.store, r, limits(r.key.0));
      if r.key == key && sys.store[key].lastChecked <= r.now {
        RefillBounds(sys.store[key], r.now, limits(key.0));
      }
    }
  }

  lemma {:induction false} TokenWaits(sys: System, es: seq<Section>, limits: Limits, id: nat, key: Key, deadline: real)
    requires SystemOk(sys) && HasToken(sys.store, key, deadline) && Quiet(sys, es, limits, id, key, deadline)
    requires id in sys.calls
    ensures HasToken(Run(sys, es, limits).store, key, deadline)
    ensures id in Run(sys, es, limits).calls && Run(sys, es, limits).calls[id] == sys.calls[id]
    decreases es
  {
    if es != [] {
      StepKeepsOk(sys, es[0], limits);
      TokenStays(sys, es[0], limits, key, deadline);
      TokenWaits(Step(sys, es[0], limits), es[1..], limits, id, key, deadline);
    }
  }

  /**
   A call that passed the section before its future is never refused by the one after it, as long as
   no other call took a token from the bucket meanwhile and the clock did not run backwards. Other
   first sections, failing futures and other buckets may come in between.
   */
  lemma QuietCallAccepted(sys: System, id: nat, key: Key, before: Clock, es: seq<Section>, after: Clock, limits: Limits)
    requires SystemOk(sys) && id !in sys.calls
    requires var mid := Step(sys, Before(id, key, before), limits);
             mid.calls[id].phase == Running && Quiet(mid, es, limits, id, key, after.now) && before.now <= after.now
    ensures var mid := Step(sys, Before(id, key, before), limits);
            var end := Step(Run(mid, es, limits), After(id, true, after), limits);
            id in end.calls && end.calls[id].phase == Finished(true)
  {
    var mid := Step(sys, Before(id, key, before), limits);
    StepKeepsOk(sys, Before(id, key, before), limits);
    if PaysFirst(key.0) {
      CallWaits(mid, es, limits, id, key, after.now);
    } else {
      FirstSectionLeavesToken(sys.store, BeforeRequest(key, before), limits(key.0));
      TokenWaits(mid, es, limits, id, key, after.now);
      var late := Run(mid, es, limits);
      ServeFrame(late.store, AfterRequest(key, after), limits(key.0));
      RefillBounds(late.store[key], after.now, limits(key.0));
    }
  }

  lemma {:induction false} CallWaits(sys: System, es: seq<Section>, limits: Limits, id: nat, key: Key, deadline: real)
    requires id in sys.calls && Quiet(sys, es, limits, id, key, deadline)
    ensures id in Run(sys, es, limits).calls && Run(sys, es, limits).calls[id] == sys.calls[id]
    decreases es
  {
    if es != [] {
      CallWaits(Step(sys, es[0], limits), es[1..], limits, id, key, deadline);
    }
  }

  lemma FirstSectionLeavesToken(store: Store, r: Request, limit: Limit)
    requires r.checkOnly && Serve(store, r, limit).verdict == Admitted
    ensures HasToken(Serve(store, r, limit).store, r.key, r.now)
  {
    FreshBuckets(store, r.key.1, r.created, ALL_TYPES);
    EveryType(r.key.0);
  }

  // ---------- overlapping calls ----------

  /** A call that is over stays as it is. */
  lemma {:induction false} FinishedStays(sys: System, es: seq<Section>, limits: Limits, id: nat)
    requires id in sys.calls && sys.calls[id].phase.Finished?
    ensures id in Run(sys, es, limits).calls && Run(sys, es, limits).calls[id] == sys.calls[id]
    decreases es
  {
    if es != [] {
      FinishedStays(Step(sys, es[0], limits), es[1..], limits, id);
    }
  }

  /** The tokens that a call finds in the bucket before any refill. */
  function Tokens(b: RateLimitBucket, limit: Limit): real {
    if b.allowance == UNUSED then limit.rate as real else b.allowance
  }

  /** These calls of one bucket have passed their first section, and their futures are under way. */
  ghost predicate AreRunning(sys: System, key: Key, ids: set<nat>) {
    && key in sys.store
    && forall id :: id in ids ==>
         id in sys.calls && sys.calls[id].key == key && sys.calls[id].phase == Running
  }

  /**
   The last sections of these calls, in any order and at any times that do not go back; every future has succeeded.
   */
  ghost predicate Closing(ids: set<nat>, from: real, es: seq<Section>) {
    && |es| == |ids|
    && (forall i :: 0 <= i < |es| ==> es[i].After? && es[i].innerOk && es[i].id in ids && from <= es[i].clock.now)
    && (forall i, j :: 0 <= i < j < |es| ==> es[i].id != es[j].id && es[i].clock.now <= es[j].clock.now)
  }

  ghost predicate AllAccepted(sys: System, es: seq<Section>, limits: Limits, ids: set<nat>) {
    var end := Run(sys, es, limits);
    forall id :: id in ids ==> id in end.calls && end.calls[id].phase == Finished(true)
  }

  lemma ClosingRest(ids: set<nat>, from: real, es: seq<Section>)
    requires Closing(ids, from, es) && es != []
    ensures es[0].id in ids && Closing(ids - {es[0].id}, es[0].clock.now, es[1..])
  {
  }

  /** One last section: accepted exactly if the refilled bucket, cut to the rate, holds a token, which it then loses. */
  lemma OneCloses(sys: System, limits: Limits, key: Key, e: Section)
    requires e.After? && e.innerOk && key.0 in {Post, Register} && AreRunning(sys, key, {e.id})
            && BucketOk(sys.store[key])
    requires sys.store[key].lastChecked <= e.clock.now
    ensures var filled := Refilled(sys.store[key], e.clock.now, limits(key.0));
            var held := if filled > limits(key.0).rate as real then limits(key.0).rate as real else filled;
            var n := Step(sys, e, limits);
            && n.calls == sys.calls[e.id := Ended(sys.calls[e.id], e.clock.now, held >= 1.0)]
            && key in n.store && BucketOk(n.store[key])
            && n.store[key] == RateLimitBucket(e.clock.now, if held >= 1.0 then held - 1.0 else held)
  {
    assert e.id in {e.id};
    ServeFrame(sys.store, AfterRequest(key, e.clock), limits(key.0));
    RefillBounds(sys.store[key], e.clock.now, limits(key.0));
  }

  lemma {:induction false} EnoughTokens(sys: System, limits: Limits, key: Key, ids: set<nat>, es: seq<Section>)
    requires key.0 in {Post, Register} && AreRunning(sys, key, ids) && BucketOk(sys.store[key])
    requires Closing(ids, sys.store[key].lastChecked, es)
    requires |ids| as real <= Tokens(sys.store[key], limits(key.0)) && |ids| <= limits(key.0).rate
    ensures AllAccepted(sys, es, limits, ids)
    decreases es
  {
    if es != [] {
      var e, rest := es[0], ids - {es[0].id};
      ClosingRest(ids, sys.store[key].lastChecked, es);
      OneCloses(sys, limits, key, e);
      RefillBounds(sys.store[key], e.clock.now, limits(key.0));
      var next := Step(sys, e, limits);
      EnoughTokens(next, limits, key, rest, es[1..]);
      FinishedStays(next, es[1..], limits, e.id);
    }
  }

  /** At one instant nothing comes in, so every call that is accepted is paid for by what the bucket held. */
  lemma {:induction false} TokensNeeded(sys: System, limits: Limits, key: Key, ids: set<nat>, es: seq<Section>)
    requires key.0 in {Post, Register} && AreRunning(sys, key, ids) && BucketOk(sys.store[key])
    requires Closing(ids, sys.store[key].lastChecked, es)
    requires forall i :: 0 <= i < |es| ==> es[i].clock.now == sys.store[key].lastChecked
    requires AllAccepted(sys, es, limits, ids)
    ensures |ids| as real <= Tokens(sys.store[key], limits(key.0)) && |ids| <= limits(key.0).rate
    decreases es
  {
    if es != [] {
      var e, rest := es[0], ids - {es[0].id};
      ClosingRest(ids, sys.store[key].lastChecked, es);
      OneCloses(sys, limits, key, e);
      assert (e.clock.now - sys.store[key].lastChecked).Floor == 0;
      var next := Step(sys, e, limits);
      FinishedStays(next, es[1..], limits, e.id);
      TokensNeeded(next, limits, key, rest, es[1..]);
    }
  }

  lemma {:induction false} ClosingExists(ids: set<nat>, clock: Clock) returns (es: seq<Section>)
    ensures Closing(ids, clock.now, es) && forall i :: 0 <= i < |es| ==> es[i].clock == clock
  {
    es := [];
    if ids != {} {
      var id :| id in ids;
      var rest := ClosingExists(ids - {id}, clock);
      es := [After(id, true, clock)] + rest;
    }
  }

  /**
   When overlapping posts (or registrations) are all told the truth: whatever the order and the times of their last
   sections, all of them are accepted, exactly when the bucket holds a token for each and they are no more than the
   rate. The second half is there because a first section refills without a cap, and a last one caps.
   */
  lemma OverlapAcceptedIff(sys: System, limits: Limits, key: Key, ids: set<nat>)
    requires SystemOk(sys) && key.0 in {Post, Register} && AreRunning(sys, key, ids)
    ensures (forall es :: Closing(ids, sys.store[key].lastChecked, es) ==> AllAccepted(sys, es, limits, ids))
            <==> |ids| as real <= Tokens(sys.store[key], limits(key.0)) && |ids| <= limits(key.0).rate
  {
    var from := sys.store[key].lastChecked;
    if |ids| as real <= Tokens(sys.store[key], limits(key.0)) && |ids| <= limits(key.0).rate {
      forall es | Closing(ids, from, es)
        ensures AllAccepted(sys, es, limits, ids)
      {
        EnoughTokens(sys, limits, key, ids, es);
      }
    } else {
      var es := ClosingExists(ids, Clock(_ => from, from));
      if AllAccepted(sys, es, limits, ids) {
        TokensNeeded(sys, limits, key, ids, es);
      }
    }
  }

  /** A call at the instant its used bucket was checked last: no refill. */
  lemma SameInstant(store: Store, r: Request, limit: Limit, allowance: real)
    requires r.key in store && store[r.key] == RateLimitBucket(r.now, allowance)
            && 0.0 <= allowance <= limit.rate as real
    ensures r.key in Serve(store, r, limit).store
    ensures Serve(store, r, limit).verdict == if allowance < 1.0 then TooManyRequests else Admitted
    ensures Serve(store, r, limit).store[r.key]
            == RateLimitBucket(r.now, if allowance < 1.0 || r.checkOnly then allowance else allowance - 1.0)
  {
    ServeFrame(store, r, limit);
    assert (r.now - r.now).Floor == 0;
    assert Refilled(store[r.key], r.now, limit) == allowance;
  }

  /** Two overlapping posts with one token: both futures run and succeed, and one caller gets an error. */
  lemma OverlapCanRefuse(store: Store, ip: IPAddr, limits: Limits, clock: Clock)
    requires limits(Post).rate == 1 && (Post, ip) in store && store[(Post, ip)] == RateLimitBucket(clock.now, 1.0)
    ensures var key := (Post, ip);
            var end := Run(System(store, map[]),
                           [Before(0, key, clock), Before(1, key, clock), After(0, true, clock), After(1, true, clock)],
                           limits);
            0 in end.calls && 1 in end.calls && end.calls[0].phase == Finished(true)
              && end.calls[1].phase == Finished(false)
  {
    var key: Key := (Post, ip);
    var limit := limits(Post);
    var a0, a1, b0, b1 := Before(0, key, clock), Before(1, key, clock), After(0, true, clock), After(1, true, clock);
    var s0 := System(store, map[]);
    var s1 := Step(s0, a0, limits);
    SameInstant(s0.store, BeforeRequest(key, clock), limit, 1.0);
    var s2 := Step(s1, a1, limits);
    SameInstant(s1.store, BeforeRequest(key, clock), limit, 1.0);
    var s3 := Step(s2, b0, limits);
    SameInstant(s2.store, AfterRequest(key, clock), limit, 1.0);
    var s4 := Step(s3, b1, limits);
    SameInstant(s3.store, AfterRequest(key, clock), limit, 0.0);
    RunFour(s0, a0, a1, b0, b1, limits);
  }

  lemma RunFour(sys: System, a: Section, b: Section, c: Section, d: Section, limits: Limits)
    ensures Run(sys, [a, b, c, d], limits) == Step(Step(Step(Step(sys, a, limits), b, limits), c, limits), d, limits)
  {
    assert [a, b, c, d][1..] == [b, c, d];
    assert [b, c, d][1..] == [c, d];
    assert [c, d][1..] == [d];
    var s1 := Step(sys, a, limits);
    var s2 := Step(s1, b, limits);
    var s3 := Step(s2, c, limits);
    assert Run(s3, [d], limits) == Step(s3, d, limits);
    assert Run(s2, [c, d], limits) == Run(s3, [d], limits);
    assert Run(s1, [b, c, d], limits) == Run(s2, [c, d], limits);
  }
}

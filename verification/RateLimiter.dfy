/**
 The token buckets of lemmy_rate_limit/src/rate_limiter.rs, one for each limit type and IP address.

 `CheckBucket` says what one call does to one bucket and `Serve` what it does to the whole limiter;
 the class keeps the nested maps of the source and is proved to follow `Serve`. Amounts and times are
 reals (the source's f64 allowance and nanosecond clock), seconds are truncated as in the source.
 */
module RateLimiter {
  datatype RateLimitType = Message | Register | Post | Image

  /** The order in which the source iterates over the types. */
  const ALL_TYPES: seq<RateLimitType> := [Message, Register, Post, Image]

  type IPAddr = string

  datatype RateLimitBucket = RateLimitBucket(lastChecked: real, allowance: real)

  /** The allowance of a bucket that no call has used yet. */
  const UNUSED := -2.0

  datatype LimitConfig = LimitConfig(rate: int, per: int)

  type Limit = l: LimitConfig | l.rate >= 1 && l.per >= 1 witness LimitConfig(1, 1)

  /** Tokens that one second brings. */
  function PerSecond(limit: Limit): (q: real)
    ensures q > 0.0
  {
    limit.rate as real / limit.per as real
  }

  datatype Verdict = Admitted | TooManyRequests | ClockWentBack

  datatype Outcome = Outcome(bucket: RateLimitBucket, verdict: Verdict)

  /** The allowance after the refill and before any cap. */
  function Refilled(b: RateLimitBucket, now: real, limit: Limit): real
    requires b.lastChecked <= now
  {
    (if b.allowance == UNUSED then limit.rate as real else b.allowance)
    + (now - b.lastChecked).Floor as real * PerSecond(limit)
  }

  /** One call on one bucket, at clock reading `now`. */
  function CheckBucket(b: RateLimitBucket, now: real, limit: Limit, checkOnly: bool): Outcome {
    if now < b.lastChecked then
      Outcome(b, ClockWentBack)
    else
      var filled := Refilled(b, now, limit);
      var allowance := if !checkOnly && filled > limit.rate as real then limit.rate as real else filled;
      if allowance < 1.0 then
        Outcome(RateLimitBucket(now, allowance), TooManyRequests)
      else
        Outcome(RateLimitBucket(now, if checkOnly then allowance else allowance - 1.0), Admitted)
  }

  /**
   What one call does to a bucket, in tokens times `per` so that nothing is divided: `d` whole seconds bring `d * rate`.
   A consuming call cuts the sum to the rate before it looks at it, and takes one token if there is one; a call that
   only checks does neither. A bucket that no call has used starts with the whole rate.
   */
  ghost predicate IsCall(b: RateLimitBucket, now: real, rate: int, per: int, checkOnly: bool, after: RateLimitBucket,
                         verdict: Verdict) {
    if now < b.lastChecked then after == b && verdict == ClockWentBack
    else after.lastChecked == now && IsCut(Held(b, now, rate, per), rate, per, checkOnly, after.allowance, verdict)
  }

  function Held(b: RateLimitBucket, now: real, rate: int, per: int): real {
    (if b.allowance == -2.0 then rate as real else b.allowance) * per as real
    + ((now - b.lastChecked).Floor * rate) as real
  }

  ghost predicate IsCut(held: real, rate: int, per: int, checkOnly: bool, after: real, verdict: Verdict) {
    var cut := if !checkOnly && held > (rate * per) as real then (rate * per) as real else held;
    && verdict == (if held >= per as real then Admitted else TooManyRequests)
    && after * per as real == cut - if verdict == Admitted && !checkOnly then per as real else 0.0
  }

  lemma TimesPer(x: real, d: int, rate: int, per: int)
    requires rate >= 1 && per >= 1
    ensures (x + d as real * (rate as real / per as real)) * per as real == x * per as real + (d * rate) as real
  {
    var r, p := rate as real, per as real;
    assert r / p * p == r;
    assert d as real * (r / p) * p == d as real * r;
  }

  lemma PerIsMonotone(x: real, y: real, per: int)
    requires per >= 1
    ensures x >= y <==> x * per as real >= y * per as real
  {
  }

  lemma OneLess(x: real, per: int)
    ensures (x - 1.0) * per as real == x * per as real - per as real
  {
  }

  lemma Product(rate: int, per: int)
    requires rate >= 1 && per >= 1
    ensures rate as real * per as real == (rate * per) as real >= per as real
  {
  }

  ghost predicate Scales(filled: real, rate: int, per: int) {
    var p, held := per as real, filled * per as real;
    && (filled >= 1.0 <==> held >= p) && (rate as real >= filled <==> (rate * per) as real >= held)
    && rate as real * p == (rate * per) as real >= p
    && (filled - 1.0) * p == held - p && (rate as real - 1.0) * p == (rate * per) as real - p
  }

  lemma Scaling(filled: real, rate: int, per: int)
    requires rate >= 1 && per >= 1
    ensures Scales(filled, rate, per)
  {
    Product(rate, per);
    PerIsMonotone(filled, 1.0, per);
    PerIsMonotone(rate as real, filled, per);
    OneLess(filled, per);
    OneLess(rate as real, per);
  }

  /** The refill, in tokens times `per`. */
  lemma HeldIs(b: RateLimitBucket, now: real, limit: Limit)
    requires b.lastChecked <= now
    ensures Held(b, now, limit.rate, limit.per) == Refilled(b, now, limit) * limit.per as real
  {
    var start := if b.allowance == UNUSED then limit.rate as real else b.allowance;
    TimesPer(start, (now - b.lastChecked).Floor, limit.rate, limit.per);
  }

  /** The allowance that a call leaves of a refilled one. */
  function Left(filled: real, rate: int, checkOnly: bool): real {
    if filled < 1.0 || checkOnly then filled else if filled > rate as real then rate as real - 1.0 else filled - 1.0
  }

  lemma CheckCases(b: RateLimitBucket, now: real, limit: Limit, checkOnly: bool)
    requires b.lastChecked <= now
    ensures var o, filled := CheckBucket(b, now, limit, checkOnly), Refilled(b, now, limit);
            && o.bucket == RateLimitBucket(now, Left(filled, limit.rate, checkOnly))
            && o.verdict == if filled >= 1.0 then Admitted else TooManyRequests
  {
  }

  lemma LeftIsCut(filled: real, held: real, rate: int, per: int, checkOnly: bool)
    requires rate >= 1 && per >= 1 && held == filled * per as real
    ensures IsCut(held, rate, per, checkOnly, Left(filled, rate, checkOnly),
                  if filled >= 1.0 then Admitted else TooManyRequests)
  {
    Scaling(filled, rate, per);
  }

  lemma CallIsCall(b: RateLimitBucket, now: real, limit: Limit, checkOnly: bool)
    ensures var o := CheckBucket(b, now, limit, checkOnly);
            IsCall(b, now, limit.rate, limit.per, checkOnly, o.bucket, o.verdict)
  {
    if b.lastChecked <= now {
      var filled, held := Refilled(b, now, limit), Held(b, now, limit.rate, limit.per);
      HeldIs(b, now, limit);
      CheckCases(b, now, limit, checkOnly);
      LeftIsCut(filled, held, limit.rate, limit.per, checkOnly);
    }
  }

  // ---------- the whole limiter ----------

  type Key = (RateLimitType, IPAddr)
  type Store = map<Key, RateLimitBucket>

  /** One call. The source reads the clock once for each bucket it has to create, then once more. */
  datatype Request = Request(key: Key, checkOnly: bool, created: RateLimitType -> real, now: real)

  datatype Reply = Reply(store: Store, verdict: Verdict)

  /** A first call from an address gives it an unused bucket of every type. */
  function WithAddress(store: Store, ip: IPAddr, created: RateLimitType -> real): Store {
    WithBuckets(store, ip, created, ALL_TYPES)
  }

  function WithBuckets(store: Store, ip: IPAddr, created: RateLimitType -> real, types: seq<RateLimitType>): Store {
    if types == [] then
      store
    else
      var ty := types[|types| - 1];
      var rest := WithBuckets(store, ip, created, types[..|types| - 1]);
      if (ty, ip) in rest then rest else rest[(ty, ip) := RateLimitBucket(created(ty), UNUSED)]
  }

  /** Exactly the missing buckets of the address are made, unused; no existing one changes. */
  lemma {:induction false} FreshBuckets(store: Store, ip: IPAddr, created: RateLimitType -> real,
                                        types: seq<RateLimitType>)
    ensures var more := WithBuckets(store, ip, created, types);
            && (forall k :: k in more <==> k in store || (k.0 in types && k.1 == ip))
            && (forall k :: k in more ==> more[k] == if k in store then store[k]
                else RateLimitBucket(created(k.0), UNUSED))
  {
    if types != [] {
      FreshBuckets(store, ip, created, types[..|types| - 1]);
      assert types == types[..|types| - 1] + [types[|types| - 1]];
    }
  }

  lemma OneMoreBucket(store: Store, ip: IPAddr, created: RateLimitType -> real, types: seq<RateLimitType>, i: nat)
    requires i < |types|
    ensures var before := WithBuckets(store, ip, created, types[..i]);
            WithBuckets(store, ip, created, types[..i + 1])
            == if (types[i], ip) in before then before
              else before[(types[i], ip) := RateLimitBucket(created(types[i]), UNUSED)]
  {
    assert types[..i + 1][..i] == types[..i];
  }

  lemma EveryType(ty: RateLimitType)
    ensures ty in ALL_TYPES
  {
    assert ALL_TYPES[0] == Message && ALL_TYPES[1] == Register && ALL_TYPES[2] == Post && ALL_TYPES[3] == Image;
  }

  function Serve(store: Store, r: Request, limit: Limit): Reply {
    var known := WithAddress(store, r.key.1, r.created);
    FreshBuckets(store, r.key.1, r.created, ALL_TYPES);
    EveryType(r.key.0);
    var o := CheckBucket(known[r.key], r.now, limit, r.checkOnly);
    Reply(known[r.key := o.bucket], o.verdict)
  }

  /**
   A call finds its bucket, or an unused one with the time at which it was made, and changes no other bucket. The four
   buckets of its address are there afterwards, and those that are new are unused.
   */
  ghost predicate IsServed(before: Store, key: Key, limit: Limit, checkOnly: bool, created: RateLimitType -> real,
                           now: real, after: Store, verdict: Verdict) {
    && key in after
    && IsCall(if key in before then before[key] else RateLimitBucket(created(key.0), -2.0), now, limit.rate, limit.per,
              checkOnly, after[key], verdict)
    && (forall k :: k in before && k != key ==> k in after && after[k] == before[k])
    && (forall k :: k in after && k !in before && k != key ==>
          k.1 == key.1 && after[k] == RateLimitBucket(created(k.0), -2.0))
    && (forall ty: RateLimitType :: (ty, key.1) in after)
  }

  lemma ServedInFields(before: Store, r: Request, limit: Limit)
    ensures var reply := Serve(before, r, limit);
            IsServed(before, r.key, limit, r.checkOnly, r.created, r.now, reply.store, reply.verdict)
  {
    var known := WithAddress(before, r.key.1, r.created);
    FreshBuckets(before, r.key.1, r.created, ALL_TYPES);
    EveryType(r.key.0);
    CallIsCall(known[r.key], r.now, limit, r.checkOnly);
    forall ty: RateLimitType ensures (ty, r.key.1) in known {
      EveryType(ty);
    }
  }

  class RateLimiter {
    var buckets: map<RateLimitType, map<IPAddr, RateLimitBucket>>

    /** The nested maps as one map. */
    ghost var contents: Store

    ghost predicate Valid()
      reads this
    {
      && (forall ty, ip :: (ty, ip) in contents <==> ty in buckets && ip in buckets[ty])
      && (forall ty, ip :: ty in buckets && ip in buckets[ty] ==> contents[(ty, ip)] == buckets[ty][ip])
    }

    constructor ()
      ensures Valid() && contents == map[]
    {
      buckets, contents := map[], map[];
    }

    method Put(ty: RateLimitType, ip: IPAddr, bucket: RateLimitBucket)
      requires Valid() && ty in buckets
      modifies this
      ensures Valid() && contents == old(contents)[(ty, ip) := bucket]
      ensures buckets.Keys == old(buckets).Keys
    {
      buckets := buckets[ty := buckets[ty][ip := bucket]];
      contents := contents[(ty, ip) := bucket];
    }

    method InsertIp(ip: IPAddr, created: RateLimitType -> real)
      requires Valid()
      modifies this
      ensures Valid() && contents == WithAddress(old(contents), ip, created)
    {
      for i := 0 to |ALL_TYPES|
        invariant Valid() && contents == WithBuckets(old(contents), ip, created, ALL_TYPES[..i])
      {
        var ty := ALL_TYPES[i];
        OneMoreBucket(old(contents), ip, created, ALL_TYPES, i);
        if ty !in buckets {
          buckets := buckets[ty := map[]];
        }
        if ip !in buckets[ty] {
          Put(ty, ip, RateLimitBucket(created(ty), UNUSED));
        }
      }
      assert ALL_TYPES[..|ALL_TYPES|] == ALL_TYPES;
    }

    /** Both of the source's fallbacks for a missing bucket are dead: `InsertIp` has just made it. */
    method CheckRateLimitFull(type_: RateLimitType, ip: IPAddr, limit: Limit, checkOnly: bool,
                              created: RateLimitType -> real, now: real)
      returns (verdict: Verdict)
      requires Valid()
      modifies this
      ensures Valid()
      ensures Reply(contents, verdict) == Serve(old(contents), Request((type_, ip), checkOnly, created, now), limit)
      ensures IsServed(old(contents), (type_, ip), limit, checkOnly, created, now, contents, verdict)
    {
      InsertIp(ip, created);
      EveryType(type_);
      FreshBuckets(old(contents), ip, created, ALL_TYPES);
      assert (type_, ip) in contents;
      var o := UpdateBucket(buckets[type_][ip], now, limit, checkOnly);
      Put(type_, ip, o.bucket);
      verdict := o.verdict;
      ServedInFields(old(contents), Request((type_, ip), checkOnly, created, now), limit);
    }
  }

  /** The part of the source that works on the bucket found for the call. */
  method UpdateBucket(bucket: RateLimitBucket, now: real, limit: Limit, checkOnly: bool) returns (o: Outcome)
    ensures o == CheckBucket(bucket, now, limit, checkOnly)
  {
    if now < bucket.lastChecked {
      return Outcome(bucket, ClockWentBack);
    }
    var timePassed := (now - bucket.lastChecked).Floor;
    var allowance := bucket.allowance;
    if allowance == UNUSED {
      allowance := limit.rate as real;
    }
    allowance := allowance + timePassed as real * PerSecond(limit);
    if !checkOnly && allowance > limit.rate as real {
      allowance := limit.rate as real;
    }
    if allowance < 1.0 {
      o := Outcome(RateLimitBucket(now, allowance), TooManyRequests);
    } else {
      if !checkOnly {
        allowance := allowance - 1.0;
      }
      o := Outcome(RateLimitBucket(now, allowance), Admitted);
    }
  }

  // ---------- properties of every run ----------

  predicate BucketOk(b: RateLimitBucket) {
    b.allowance == UNUSED || b.allowance >= 0.0
  }

  /** What every reachable limiter satisfies: the sentinel, or a real allowance. */
  ghost predicate StoreOk(store: Store) {
    forall k :: k in store ==> BucketOk(store[k])
  }

  type Limits = RateLimitType -> Limit

  ghost function RunStore(store: Store, reqs: seq<Request>, limits: Limits): Store
    decreases reqs
  {
    if reqs == [] then store
    else RunStore(Serve(store, reqs[0], limits(reqs[0].key.0)).store, reqs[1..], limits)
  }

  /** The consuming calls on `key` that the run admits at a clock reading between `from` and `to`. */
  ghost function AdmittedIn(store: Store, reqs: seq<Request>, limits: Limits, key: Key, from: real, to: real): nat
    decreases reqs
  {
    if reqs == [] then
      0
    else
      var r := reqs[0];
      var reply := Serve(store, r, limits(r.key.0));
      (if r.key == key && !r.checkOnly && reply.verdict == Admitted && from <= r.now <= to then 1 else 0)
      + AdmittedIn(reply.store, reqs[1..], limits, key, from, to)
  }

  /** A refill never takes tokens away and never brings more than the exact elapsed time is worth. */
  lemma RefillBounds(b: RateLimitBucket, now: real, limit: Limit)
    requires b.lastChecked <= now
    ensures var start := if b.allowance == UNUSED then limit.rate as real else b.allowance;
            start <= Refilled(b, now, limit) <= start + (now - b.lastChecked) * PerSecond(limit)
  {
    var q, d := PerSecond(limit), now - b.lastChecked;
    assert 0.0 <= d.Floor as real <= d;
    assert d.Floor as real * q <= d * q;
  }

  /** One call: the bucket stays legal, and a consuming admission leaves at most rate - 1 tokens. */
  lemma CheckBucketBounds(b: RateLimitBucket, now: real, limit: Limit, checkOnly: bool)
    requires BucketOk(b)
    ensures var o := CheckBucket(b, now, limit, checkOnly);
            && BucketOk(o.bucket)
            && (now < b.lastChecked <==> o.verdict == ClockWentBack)
            && (now < b.lastChecked ==> o.bucket == b)
            && (now >= b.lastChecked ==> o.bucket.lastChecked == now && o.bucket.allowance >= 0.0)
            && (o.verdict == Admitted && !checkOnly ==> o.bucket.allowance <= limit.rate as real - 1.0)
  {
    if b.lastChecked <= now {
      RefillBounds(b, now, limit);
    }
  }

  /** A call touches its own bucket, makes missing ones of its address, and leaves all others alone. */
  lemma ServeFrame(store: Store, r: Request, limit: Limit)
    ensures forall k :: k in store && k != r.key ==>
              k in Serve(store, r, limit).store && Serve(store, r, limit).store[k] == store[k]
    ensures forall k :: k in Serve(store, r, limit).store && k !in store && k != r.key ==>
              k.1 == r.key.1 && Serve(store, r, limit).store[k] == RateLimitBucket(r.created(k.0), UNUSED)
    ensures r.key in Serve(store, r, limit).store
    ensures r.key in store ==>
              CheckBucket(store[r.key], r.now, limit, r.checkOnly)
              == Outcome(Serve(store, r, limit).store[r.key], Serve(store, r, limit).verdict)
  {
    FreshBuckets(store, r.key.1, r.created, ALL_TYPES);
    EveryType(r.key.0);
  }

  lemma ServeKeepsOk(store: Store, r: Request, limit: Limit)
    requires StoreOk(store)
    ensures StoreOk(Serve(store, r, limit).store)
  {
    FreshBuckets(store, r.key.1, r.created, ALL_TYPES);
    EveryType(r.key.0);
    var known := WithAddress(store, r.key.1, r.created);
    CheckBucketBounds(known[r.key], r.now, limit, r.checkOnly);
  }

  /** The sentinel -2 marks unused buckets only: no run ever brings an allowance below zero. */
  lemma {:induction false} RunKeepsOk(store: Store, reqs: seq<Request>, limits: Limits)
    requires StoreOk(store)
    ensures StoreOk(RunStore(store, reqs, limits))
    decreases reqs
  {
    if reqs != [] {
      ServeKeepsOk(store, reqs[0], limits(reqs[0].key.0));
      RunKeepsOk(Serve(store, reqs[0], limits(reqs[0].key.0)).store, reqs[1..], limits);
    }
  }

  /** A consuming admission is recorded at its own time and leaves between 0 and rate - 1 tokens. */
  lemma AdmissionLeaves(store: Store, r: Request, limit: Limit)
    requires StoreOk(store) && !r.checkOnly && Serve(store, r, limit).verdict == Admitted
    ensures r.key in Serve(store, r, limit).store
    ensures Serve(store, r, limit).store[r.key].lastChecked == r.now
    ensures 0.0 <= Serve(store, r, limit).store[r.key].allowance <= limit.rate as real - 1.0
  {
    FreshBuckets(store, r.key.1, r.created, ALL_TYPES);
    EveryType(r.key.0);
    var known := WithAddress(store, r.key.1, r.created);
    assert BucketOk(known[r.key]);
    CheckBucketBounds(known[r.key], r.now, limit, r.checkOnly);
  }

  /** Once a bucket has seen a call after `to`, the window is closed. */
  lemma {:induction false} WindowClosed(store: Store, reqs: seq<Request>, limits: Limits, key: Key, from: real,
                                        to: real)
    requires StoreOk(store) && key in store && store[key].lastChecked > to
    ensures AdmittedIn(store, reqs, limits, key, from, to) == 0
    decreases reqs
  {
    if reqs != [] {
      var r := reqs[0];
      var limit := limits(r.key.0);
      ServeFrame(store, r, limit);
      ServeKeepsOk(store, r, limit);
      CheckBucketBounds(store[key], r.now, limit, r.checkOnly);
      WindowClosed(Serve(store, r, limit).store, reqs[1..], limits, key, from, to);
    }
  }

  /** What a used bucket holds now, plus what the time up to `to` can still bring it. */
  ghost function Worth(b: RateLimitBucket, to: real, q: real): real {
    b.allowance + Brings(b.lastChecked, to, q)
  }

  ghost function Brings(from: real, to: real, q: real): real {
    (to - from) * q
  }

  lemma BringsAddsUp(a: real, b: real, c: real, q: real)
    requires a <= b <= c && q > 0.0
    ensures Brings(a, b, q) + Brings(b, c, q) == Brings(a, c, q)
    ensures Brings(a, b, q) >= 0.0 && Brings(b, c, q) >= 0.0
  {
  }

  /** A call never makes the bucket worth more, and an admitted consuming call costs one token. */
  lemma CallPays(b: RateLimitBucket, now: real, limit: Limit, checkOnly: bool, to: real)
    requires b.allowance >= 0.0 && b.lastChecked <= now <= to
    ensures var o := CheckBucket(b, now, limit, checkOnly);
            Worth(o.bucket, to, PerSecond(limit)) + (if !checkOnly && o.verdict == Admitted then 1.0 else 0.0)
            <= Worth(b, to, PerSecond(limit))
  {
    RefillBounds(b, now, limit);
    BringsAddsUp(b.lastChecked, now, to, PerSecond(limit));
  }

  /** From a used bucket, what it is worth pays for every admission. */
  lemma {:induction false} TokensPay(store: Store, reqs: seq<Request>, limits: Limits, key: Key, from: real, to: real)
    requires StoreOk(store) && key in store && store[key].allowance >= 0.0 && store[key].lastChecked <= to
    ensures AdmittedIn(store, reqs, limits, key, from, to) as real <= Worth(store[key], to, PerSecond(limits(key.0)))
    decreases reqs
  {
    var b := store[key];
    BringsAddsUp(b.lastChecked, to, to, PerSecond(limits(key.0)));
    if reqs != [] {
      var r := reqs[0];
      var limit := limits(r.key.0);
      var next := Serve(store, r, limit).store;
      ServeFrame(store, r, limit);
      ServeKeepsOk(store, r, limit);
      if r.key == key {
        CheckBucketBounds(b, r.now, limit, r.checkOnly);
      }
      if r.key == key && r.now > to {
        WindowClosed(next, reqs[1..], limits, key, from, to);
      } else {
        TokensPay(next, reqs[1..], limits, key, from, to);
        if r.key == key && b.lastChecked <= r.now {
          CallPays(b, r.now, limit, r.checkOnly, to);
        }
      }
    }
  }

  /**
   The rate limit: whatever calls of either kind, types and addresses are mixed in between, a window
   from `from` to `to` admits at most rate + (to - from) * rate / per consuming calls on one bucket.
   */
  lemma WindowBound(store: Store, reqs: seq<Request>, limits: Limits, key: Key, from: real, to: real)
    requires StoreOk(store) && from <= to
    ensures FitsWindow(AdmittedIn(store, reqs, limits, key, from, to), limits(key.0).rate, limits(key.0).per, from, to)
  {
    WindowTokens(store, reqs, limits, key, from, to);
    BoundInFields(AdmittedIn(store, reqs, limits, key, from, to), limits(key.0), from, to);
  }

  ghost predicate FitsWindow(n: nat, rate: int, per: int, from: real, to: real) {
    per >= 1 && n as real <= rate as real + (to - from) * rate as real / per as real
  }

  ghost predicate FitsTokens(n: nat, limit: Limit, from: real, to: real) {
    n as real <= limit.rate as real + Brings(from, to, PerSecond(limit))
  }

  lemma BoundInFields(n: nat, limit: Limit, from: real, to: real)
    requires FitsTokens(n, limit, from, to)
    ensures FitsWindow(n, limit.rate, limit.per, from, to)
  {
    TimesRatio(to - from, limit.rate as real, limit.per as real);
  }

  lemma TimesRatio(x: real, a: real, b: real)
    requires b > 0.0
    ensures x * (a / b) == x * a / b
  {
  }

  lemma {:induction false} WindowTokens(store: Store, reqs: seq<Request>, limits: Limits, key: Key, from: real,
                                        to: real)
    requires StoreOk(store) && from <= to
    ensures FitsTokens(AdmittedIn(store, reqs, limits, key, from, to), limits(key.0), from, to)
    decreases reqs
  {
    var q := PerSecond(limits(key.0));
    BringsAddsUp(from, to, to, q);
    if reqs != [] {
      var r := reqs[0];
      var limit := limits(r.key.0);
      var reply := Serve(store, r, limit);
      ServeKeepsOk(store, r, limit);
      if r.key == key && !r.checkOnly && reply.verdict == Admitted && from <= r.now <= to {
        AdmissionLeaves(store, r, limit);
        TokensPay(reply.store, reqs[1..], limits, key, from, to);
        BringsAddsUp(from, r.now, to, q);
        assert Worth(reply.store[key], to, q) <= limit.rate as real - 1.0 + Brings(from, to, q);
      } else {
        WindowTokens(reply.store, reqs[1..], limits, key, from, to);
      }
    }
  }

  /** Every call on `key` comes less than a second after the reading its bucket recorded last. */
  ghost predicate SubSecond(store: Store, reqs: seq<Request>, limits: Limits, key: Key)
    requires key in store
    decreases reqs
  {
    reqs != [] ==>
      var r := reqs[0];
      ServeFrame(store, r, limits(r.key.0));
      && (r.key == key ==> r.now < store[key].lastChecked + 1.0)
      && SubSecond(Serve(store, r, limits(r.key.0)).store, reqs[1..], limits, key)
  }

  lemma NothingGained(b: RateLimitBucket, now: real, limit: Limit, checkOnly: bool)
    requires b.allowance >= 0.0 && now < b.lastChecked + 1.0
    ensures var o := CheckBucket(b, now, limit, checkOnly);
            var cost := if !checkOnly && o.verdict == Admitted then 1.0 else 0.0;
            && 0.0 <= o.bucket.allowance <= b.allowance - cost
            && (cost == 1.0 ==> o.bucket.allowance <= limit.rate as real - 1.0)
  {
    if b.lastChecked <= now {
      assert (now - b.lastChecked).Floor == 0;
      assert Refilled(b, now, limit) == b.allowance;
    }
  }

  /** Truncated seconds: a bucket hammered faster than once a second never refills. */
  lemma {:induction false} NoRefillUnderASecond(store: Store, reqs: seq<Request>, limits: Limits, key: Key, from: real,
                                                to: real)
    requires StoreOk(store) && key in store && store[key].allowance >= 0.0
    requires SubSecond(store, reqs, limits, key)
    ensures key in RunStore(store, reqs, limits)
    ensures 0.0 <= RunStore(store, reqs, limits)[key].allowance <= store[key].allowance
    ensures AdmittedIn(store, reqs, limits, key, from, to) as real
            <= if store[key].allowance <= limits(key.0).rate as real then store[key].allowance
              else limits(key.0).rate as real
    decreases reqs
  {
    if reqs != [] {
      var r := reqs[0];
      var limit := limits(r.key.0);
      ServeFrame(store, r, limit);
      ServeKeepsOk(store, r, limit);
      if r.key == key {
        NothingGained(store[key], r.now, limit, r.checkOnly);
      }
      NoRefillUnderASecond(Serve(store, r, limit).store, reqs[1..], limits, key, from, to);
    }
  }

  /** A period brings the whole rate. */
  lemma PeriodBringsRate(limit: Limit, d: int)
    requires d >= limit.per
    ensures d as real * PerSecond(limit) >= limit.rate as real
  {
    var p, q := limit.per as real, PerSecond(limit);
    assert p * q == limit.rate as real;
    Monotone(p, d as real, q);
  }

  lemma Monotone(a: real, b: real, q: real)
    requires a <= b && q > 0.0
    ensures a * q <= b * q
  {
  }

  /** A call that only checks never takes tokens away. */
  lemma CheckOnlyKeepsTokens(store: Store, r: Request, limit: Limit)
    requires StoreOk(store) && r.checkOnly && r.key in store && store[r.key].allowance != -2.0
    ensures r.key in Serve(store, r, limit).store
    ensures Serve(store, r, limit).store[r.key].allowance >= store[r.key].allowance
  {
    ServeFrame(store, r, limit);
    if store[r.key].lastChecked <= r.now {
      RefillBounds(store[r.key], r.now, limit);
    }
  }

  /** Waiting `per` whole seconds is always enough. */
  lemma PatientCallAdmitted(b: RateLimitBucket, now: real, limit: Limit, checkOnly: bool)
    requires BucketOk(b) && b.lastChecked + limit.per as real <= now
    ensures CheckBucket(b, now, limit, checkOnly).verdict == Admitted
  {
    assert b.lastChecked <= now;
    var d := (now - b.lastChecked).Floor;
    assert d >= limit.per;
    PeriodBringsRate(limit, d);
    var start := if b.allowance == UNUSED then limit.rate as real else b.allowance;
    assert Refilled(b, now, limit) == start + d as real * PerSecond(limit) >= limit.rate as real >= 1.0;
  }
}

/** Token buckets of the traffic policy and the table that keeps and sweeps them (policy.rs).
    Time and tokens are real numbers. */
module Policy {
  import opened Wrappers

  datatype RateLimit = RateLimit(perSecond: real, burst: real)

  datatype Taken = Admitted | Limited(waitSecs: real) | Capacity

  function Min(a: real, b: real): real { if a <= b then a else b }

  function Max(a: real, b: real): real { if a >= b then a else b }

  // ----- Configuration -----

  const MAX_U32: nat := 4294967295

  function Ceil(x: real): int { if x == x.Floor as real then x.Floor else x.Floor + 1 }

  datatype Compiled<T> = Valid(value: T) | Invalid

  /** The default burst is the rate rounded up, at least one; the cast to 32 bits saturates. */
  function DefaultBurst(rate: real): nat
    requires rate > 0.0
  {
    var n := if Ceil(rate) < 1 then 1 else Ceil(rate);
    if n > MAX_U32 then MAX_U32 else n
  }

  function RateLimitOf(perSecond: Option<real>, burst: Option<nat>): Compiled<Option<RateLimit>> {
    match perSecond
    case None => if burst.Some? then Invalid else Valid(None)
    case Some(rate) =>
      if rate <= 0.0 then Invalid
      else
        var n := burst.GetOr(DefaultBurst(rate));
        if n == 0 then Invalid else Valid(Some(RateLimit(rate, n as real)))
  }

  /** The byte limit is refused unless it lets every datagram size pass. */
  function ByteRateOf(perSecond: Option<real>, burst: Option<nat>): Compiled<Option<RateLimit>> {
    match RateLimitOf(perSecond, burst)
    case Valid(Some(l)) => if l.burst < 65535.0 then Invalid else Valid(Some(l))
    case other => other
  }

  predicate ValidLimit(l: RateLimit) { l.perSecond > 0.0 && l.burst >= 1.0 }

  /** Every limit the configuration lets through admits one request, and every byte limit admits any
      datagram. */
  lemma CompiledLimitsFit(perSecond: Option<real>, burst: Option<nat>, size: nat)
    ensures var r := RateLimitOf(perSecond, burst); r.Valid? && r.value.Some? ==> ValidLimit(r.value.value)
    ensures var r := ByteRateOf(perSecond, burst);
            r.Valid? && r.value.Some? && size <= 65535 ==>
              ValidLimit(r.value.value) && size as real <= r.value.value.burst
  {
    if perSecond.Some? && perSecond.value > 0.0 {
      var n := burst.GetOr(DefaultBurst(perSecond.value));
      assert n >= 1 ==> n as real >= 1.0;
      assert size <= 65535 ==> size as real <= 65535.0;
    }
  }

  lemma CeilIs(x: real)
    ensures x <= Ceil(x) as real < x + 1.0
  {
  }

  /** Which settings are refused, and what the others mean: the configured rate, and the configured burst or else
      the least whole number that is at least the rate and at least one, up to 32 bits. */
  lemma CompiledExactly(perSecond: Option<real>, burst: Option<nat>)
    ensures var r := RateLimitOf(perSecond, burst);
            && (r.Invalid? <==>
                (perSecond.None? && burst.Some?) || (perSecond.Some? && (perSecond.value <= 0.0 || burst == Some(0))))
            && (r.Valid? ==> (r.value.Some? <==> perSecond.Some?))
            && (r.Valid? && r.value.Some? ==>
                  && r.value.value.perSecond == perSecond.value
                  && (burst.Some? ==> r.value.value.burst == burst.value as real)
                  && (burst.None? ==> IsDefaultBurst(r.value.value.burst, perSecond.value)))
    ensures var r, b := RateLimitOf(perSecond, burst), ByteRateOf(perSecond, burst);
            if r.Valid? && r.value.Some? && r.value.value.burst < 65535.0 then b.Invalid? else b == r
  {
    if perSecond.Some? && perSecond.value > 0.0 {
      CeilIs(perSecond.value);
      DefaultBurstIs(perSecond.value);
    }
  }

  ghost predicate IsDefaultBurst(burst: real, rate: real) {
    if rate <= MAX_U32 as real
    then rate <= burst < rate + 1.0 && burst >= 1.0 && burst == burst.Floor as real
    else burst == MAX_U32 as real
  }

  lemma DefaultBurstIs(rate: real)
    requires rate > 0.0
    ensures DefaultBurst(rate) >= 1 && IsDefaultBurst(DefaultBurst(rate) as real, rate)
  {
    CeilIs(rate);
  }

  // ----- One bucket -----

  datatype Bucket = Bucket(tokens: real, updated: real, fullAfter: real)

  function Refilled(b: Bucket, l: RateLimit, now: real): real {
    Min(b.tokens + Max(now - b.updated, 0.0) * l.perSecond, l.burst)
  }

  function Take(b: Bucket, l: RateLimit, amount: real, now: real): (Bucket, Taken)
    requires l.perSecond > 0.0
  {
    var tokens := Refilled(b, l, now);
    if tokens >= amount then (Bucket(tokens - amount, now, l.burst / l.perSecond), Admitted)
    else (Bucket(tokens, now, l.burst / l.perSecond), Limited((amount - tokens) / l.perSecond))
  }

  predicate Sound(b: Bucket, l: RateLimit) { 0.0 <= b.tokens <= l.burst }

  lemma Scale(a: real, b: real, r: real)
    requires a <= b && r >= 0.0
    ensures a * r <= b * r
  {
  }

  lemma TakeIsSound(b: Bucket, l: RateLimit, amount: real, now: real)
    requires ValidLimit(l) && Sound(b, l) && amount >= 0.0
    ensures Sound(Take(b, l, amount, now).0, l)
  {
    Scale(0.0, Max(now - b.updated, 0.0), l.perSecond);
  }

  /** A refused request succeeds on a bucket nobody else used exactly when the announced wait is over
      and its amount fits the burst at all. */
  lemma RetrySucceedsExactly(b: Bucket, l: RateLimit, amount: real, now: real, later: real)
    requires ValidLimit(l) && Sound(b, l) && later >= now
    requires Take(b, l, amount, now).1.Limited?
    ensures var (b', refused) := Take(b, l, amount, now);
            Take(b', l, amount, later).1.Admitted? <==> amount <= l.burst && later - now >= refused.waitSecs
  {
    var tokens := Refilled(b, l, now);
    var missing := amount - tokens;
    var elapsed := later - now;
    if elapsed >= missing / l.perSecond {
      Scale(missing / l.perSecond, elapsed, l.perSecond);
    } else {
      ScaleStrict(elapsed, missing / l.perSecond, l.perSecond);
    }
    assert missing / l.perSecond * l.perSecond == missing;
  }

  lemma ScaleStrict(a: real, b: real, r: real)
    requires a < b && r > 0.0
    ensures a * r < b * r
  {
  }

  /** The answer's header: whole seconds, rounded up, at least one. */
  function RetryAfterSecs(t: Taken): nat
    requires !t.Admitted?
  {
    match t
    case Limited(wait) => if Ceil(wait) < 1 then 1 else Ceil(wait)
    case Capacity => 1
  }

  /** The least whole number of seconds, at least one, that covers the wait. */
  lemma RetryAfterIsLeast(t: Taken)
    requires !t.Admitted?
    ensures RetryAfterSecs(t) >= 1
    ensures t.Limited? ==> RetryAfterSecs(t) as real >= t.waitSecs
    ensures t.Limited? && RetryAfterSecs(t) > 1 ==> (RetryAfterSecs(t) - 1) as real < t.waitSecs
    ensures t.Capacity? ==> RetryAfterSecs(t) == 1
  {
    if t.Limited? { CeilIs(t.waitSecs); }
  }

  /** Coming back after the announced whole seconds is enough, for every amount that fits. */
  lemma AnnouncedRetrySucceeds(b: Bucket, l: RateLimit, amount: real, now: real)
    requires ValidLimit(l) && Sound(b, l) && amount <= l.burst
    requires Take(b, l, amount, now).1.Limited?
    ensures var (b', refused) := Take(b, l, amount, now);
            Take(b', l, amount, now + RetryAfterSecs(refused) as real).1.Admitted?
  {
    var refused := Take(b, l, amount, now).1;
    assert RetryAfterSecs(refused) as real >= refused.waitSecs;
    RetrySucceedsExactly(b, l, amount, now, now + RetryAfterSecs(refused) as real);
  }

  // ----- Windows -----

  datatype Attempt = Attempt(amount: real, now: real)

  predicate Ordered(start: real, attempts: seq<Attempt>)
    decreases |attempts|
  {
    attempts == [] || (attempts[0].amount >= 0.0 && attempts[0].now >= start && Ordered(attempts[0].now, attempts[1..]))
  }

  function After(b: Bucket, l: RateLimit, attempts: seq<Attempt>): Bucket
    requires l.perSecond > 0.0
    decreases |attempts|
  {
    if attempts == [] then b else After(Take(b, l, attempts[0].amount, attempts[0].now).0, l, attempts[1..])
  }

  function AdmittedAmount(b: Bucket, l: RateLimit, attempts: seq<Attempt>): real
    requires l.perSecond > 0.0
    decreases |attempts|
  {
    if attempts == [] then 0.0
    else
      var (b', taken) := Take(b, l, attempts[0].amount, attempts[0].now);
      (if taken.Admitted? then attempts[0].amount else 0.0) + AdmittedAmount(b', l, attempts[1..])
  }

  /** Tokens refilled between two instants. */
  function Gain(l: RateLimit, from: real, to: real): real { (to - from) * l.perSecond }

  lemma GainSplits(l: RateLimit, from: real, mid: real, to: real)
    ensures Gain(l, from, mid) + Gain(l, mid, to) == Gain(l, from, to)
  {
  }

  function AdmittedBy(b: Bucket, l: RateLimit, a: Attempt): real
    requires l.perSecond > 0.0
  {
    if Take(b, l, a.amount, a.now).1.Admitted? then a.amount else 0.0
  }

  /** One attempt: what it admits and leaves is covered by the burst, and by what was there plus what
      was refilled. */
  lemma TakeBalances(b: Bucket, l: RateLimit, a: Attempt)
    requires ValidLimit(l) && Sound(b, l) && a.amount >= 0.0 && a.now >= b.updated
    ensures var b' := Take(b, l, a.amount, a.now).0;
            && b'.updated == a.now && Sound(b', l)
            && AdmittedBy(b, l, a) + b'.tokens <= l.burst
            && AdmittedBy(b, l, a) + b'.tokens <= b.tokens + Gain(l, b.updated, a.now)
  {
    TakeIsSound(b, l, a.amount, a.now);
    assert Max(a.now - b.updated, 0.0) == a.now - b.updated;
  }

  /** What was admitted and what is left never exceed what was there plus what was refilled. */
  lemma {:induction false} TokensAreConserved(b: Bucket, l: RateLimit, attempts: seq<Attempt>)
    requires ValidLimit(l) && Sound(b, l) && Ordered(b.updated, attempts)
    ensures Sound(After(b, l, attempts), l)
    ensures AdmittedAmount(b, l, attempts) + After(b, l, attempts).tokens
         <= b.tokens + Gain(l, b.updated, After(b, l, attempts).updated)
    decreases |attempts|
  {
    if attempts == [] {
      assert Gain(l, b.updated, b.updated) == 0.0;
    } else {
      var b1 := Take(b, l, attempts[0].amount, attempts[0].now).0;
      TakeBalances(b, l, attempts[0]);
      TokensAreConserved(b1, l, attempts[1..]);
      GainSplits(l, b.updated, b1.updated, After(b, l, attempts).updated);
    }
  }

  /** In every window of every run, the amount admitted is at most the burst plus the rate times the
      length of the window. */
  lemma WindowBound(b: Bucket, l: RateLimit, before: seq<Attempt>, window: seq<Attempt>)
    requires ValidLimit(l) && Sound(b, l) && Ordered(b.updated, before) && window != []
    requires Ordered(After(b, l, before).updated, window)
    ensures AdmittedAmount(After(b, l, before), l, window) <= l.burst + Gain(l, window[0].now, window[|window| - 1].now)
  {
    TokensAreConserved(b, l, before);
    var start := After(b, l, before);
    var b1 := Take(start, l, window[0].amount, window[0].now).0;
    TakeBalances(start, l, window[0]);
    TokensAreConserved(b1, l, window[1..]);
    LastUpdate(b1, l, window[1..]);
  }

  lemma {:induction false} LastUpdate(b: Bucket, l: RateLimit, attempts: seq<Attempt>)
    requires l.perSecond > 0.0
    ensures After(b, l, attempts).updated == if attempts == [] then b.updated else attempts[|attempts| - 1].now
    decreases |attempts|
  {
    if attempts != [] {
      LastUpdate(Take(b, l, attempts[0].amount, attempts[0].now).0, l, attempts[1..]);
    }
  }

  // ----- The table -----

  type Key = nat

  /** The limit and the settings are fixed while they are in force. */
  datatype Settings = Settings(limitOf: Key -> RateLimit, maxEntries: nat, idleTtl: real)

  datatype Table = Table(buckets: map<Key, Bucket>, nextFullSweepMs: nat)

  function Millis(now: real): nat { if now < 0.0 then 0 else (now * 1000.0).Floor }

  function Swept(buckets: map<Key, Bucket>, now: real, idleTtl: real): map<Key, Bucket> {
    map k | k in buckets && Max(now - buckets[k].updated, 0.0) < Max(buckets[k].fullAfter, idleTtl) :: buckets[k]
  }

  function NewBucket(l: RateLimit, now: real): Bucket { Bucket(l.burst, now, 0.0) }

  /** The table after the sweep a full table may get on the request path, once a second at most. */
  function MadeRoom(t: Table, s: Settings, now: real): Table {
    if |t.buckets| >= s.maxEntries && Millis(now) >= t.nextFullSweepMs
    then Table(Swept(t.buckets, now, s.idleTtl), Millis(now) + 1000) else t
  }

  ghost predicate ValidSettings(s: Settings) { forall k :: ValidLimit(s.limitOf(k)) }

  /** A new bucket and its answer, if there is room. */
  function PutNew(room: Table, s: Settings, key: Key, made: (Bucket, Taken)): (Table, Taken) {
    if |room.buckets| >= s.maxEntries then (room, Capacity)
    else (room.(buckets := room.buckets[key := made.0]), made.1)
  }

  function TableTake(t: Table, s: Settings, key: Key, amount: real, now: real): (Table, Taken)
    requires ValidSettings(s)
  {
    var l := s.limitOf(key);
    if key in t.buckets then
      var (b, taken) := Take(t.buckets[key], l, amount, now);
      (t.(buckets := t.buckets[key := b]), taken)
    else PutNew(MadeRoom(t, s, now), s, key, Take(NewBucket(l, now), l, amount, now))
  }

  /** Not idle long enough to be dropped, or not yet refilled; a clock that went back counts as no time. */
  predicate InUse(b: Bucket, idleTtl: real, now: real) {
    var idle := if now < b.updated then 0.0 else now - b.updated;
    idle < idleTtl || idle < b.fullAfter
  }

  /** A new client is refused for lack of room exactly when the table is full and stays full: the second since
      the last sweep is not over, or as many buckets as fit are neither refilled nor idle long enough. */
  lemma CapacityExactly(t: Table, s: Settings, key: Key, amount: real, now: real)
    requires ValidSettings(s) && key !in t.buckets
    ensures var live := set k | k in t.buckets && InUse(t.buckets[k], s.idleTtl, now);
            var sweeps := |t.buckets| >= s.maxEntries && Millis(now) >= t.nextFullSweepMs;
            && (TableTake(t, s, key, amount, now).1.Capacity? <==>
                |t.buckets| >= s.maxEntries && (sweeps ==> |live| >= s.maxEntries))
            && (forall k :: k in t.buckets && !(sweeps && k !in live) ==>
                  k in TableTake(t, s, key, amount, now).0.buckets)
            && (sweeps ==> TableTake(t, s, key, amount, now).0.nextFullSweepMs == Millis(now) + 1000)
  {
    var live := set k | k in t.buckets && InUse(t.buckets[k], s.idleTtl, now);
    var swept := Swept(t.buckets, now, s.idleTtl);
    assert swept.Keys == live;
    assert |swept| == |swept.Keys|;
    var l := s.limitOf(key);
    assert ValidLimit(l);
    assert !Take(NewBucket(l, now), l, amount, now).1.Capacity?;
  }

  /** A full table is swept again once a second has passed, and not before all but its last millisecond has. */
  lemma NextSweep(t: Table, s: Settings, now: real, later: real)
    requires 0.0 <= now <= later && Millis(now) >= t.nextFullSweepMs && |t.buckets| >= s.maxEntries
    ensures var t' := MadeRoom(t, s, now);
            && (later >= now + 1.0 ==> Millis(later) >= t'.nextFullSweepMs)
            && (Millis(later) >= t'.nextFullSweepMs ==> later > now + 0.999)
  {
    MillisIs(now);
    MillisIs(later);
  }

  lemma MillisIs(now: real)
    requires now >= 0.0
    ensures Millis(now) as real <= now * 1000.0 < Millis(now) as real + 1.0
  {
  }

  /** The reference: a table that keeps every bucket forever and is never full. */
  function KeepTake(all: map<Key, Bucket>, s: Settings, key: Key, amount: real, now: real): (map<Key, Bucket>, Taken)
    requires ValidSettings(s)
  {
    var l := s.limitOf(key);
    var (b, taken) := Take(if key in all then all[key] else NewBucket(l, now), l, amount, now);
    (all[key := b], taken)
  }

  /** The table, the reference beside it, and the clock at which the table last dropped each bucket. */
  datatype Tracked = Tracked(table: Table, all: map<Key, Bucket>, dropped: map<Key, real>)

  /** The table agrees with the reference on every bucket it has; those it dropped had refilled. */
  ghost predicate Agrees(x: Tracked, s: Settings)
    requires ValidSettings(s)
  {
    && (forall k :: k in x.all ==> Held(x.all[k], s.limitOf(k)))
    && (forall k :: k in x.table.buckets ==> k in x.all && x.table.buckets[k] == x.all[k])
    && (forall k :: k in x.all && k !in x.table.buckets ==>
          k in x.dropped && WasFull(x.all[k], s.limitOf(k), x.dropped[k]))
  }

  predicate Held(b: Bucket, l: RateLimit)
    requires l.perSecond > 0.0
  {
    Sound(b, l) && b.fullAfter == l.burst / l.perSecond
  }

  predicate WasFull(b: Bucket, l: RateLimit, time: real) { b.updated <= time && Full(b, l, time) }

  predicate Full(b: Bucket, l: RateLimit, time: real) { b.tokens + Gain(l, b.updated, time) >= l.burst }

  lemma FullStaysFull(b: Bucket, l: RateLimit, time: real, later: real)
    requires ValidLimit(l) && Full(b, l, time) && time <= later
    ensures Full(b, l, later)
  {
    GainSplits(l, b.updated, time, later);
    Scale(0.0, later - time, l.perSecond);
  }

  /** An idle bucket is dropped only after the time it takes to refill completely. */
  lemma IdleIsFull(b: Bucket, l: RateLimit, now: real)
    requires ValidLimit(l) && Sound(b, l) && b.updated <= now && now - b.updated >= l.burst / l.perSecond
    ensures Full(b, l, now)
  {
    Scale(l.burst / l.perSecond, now - b.updated, l.perSecond);
    assert l.burst / l.perSecond * l.perSecond == l.burst;
  }

  /** A full bucket answers like a new one, and is like a new one afterwards. */
  lemma FullActsNew(b: Bucket, l: RateLimit, amount: real, now: real)
    requires ValidLimit(l) && Sound(b, l) && b.updated <= now && Full(b, l, now)
    ensures Take(b, l, amount, now) == Take(NewBucket(l, now), l, amount, now)
  {
    assert Max(now - b.updated, 0.0) == now - b.updated;
    assert Refilled(b, l, now) == l.burst;
    assert Refilled(NewBucket(l, now), l, now) == l.burst;
  }

  /** Notes the buckets that went with one operation. */
  function Noted(dropped: map<Key, real>, before: map<Key, Bucket>, after: map<Key, Bucket>, now: real)
    : map<Key, real>
  {
    map k | k in dropped.Keys + before.Keys && (k in dropped || k !in after) ::
      if k in before && k !in after then now else dropped[k]
  }

  lemma SweepAgrees(x: Tracked, s: Settings, now: real, next: nat)
    requires ValidSettings(s) && Agrees(x, s)
    ensures var left := Swept(x.table.buckets, now, s.idleTtl);
            Agrees(Tracked(Table(left, next), x.all, Noted(x.dropped, x.table.buckets, left, now)), s)
  {
    var left := Swept(x.table.buckets, now, s.idleTtl);
    forall k | k in x.table.buckets && k !in left ensures WasFull(x.all[k], s.limitOf(k), now) {
      var l := s.limitOf(k);
      assert l.burst / l.perSecond > 0.0 by { Divides(l); }
      IdleIsFull(x.all[k], l, now);
    }
  }

  lemma Divides(l: RateLimit)
    requires ValidLimit(l)
    ensures l.burst / l.perSecond > 0.0
  {
    assert l.burst / l.perSecond * l.perSecond == l.burst;
    if l.burst / l.perSecond <= 0.0 { Scale(l.burst / l.perSecond, 0.0, l.perSecond); }
  }

  /** A bucket that is written in both tables. */
  lemma BothWrite(x: Tracked, s: Settings, key: Key, b: Bucket)
    requires ValidSettings(s) && Agrees(x, s) && Held(b, s.limitOf(key))
    ensures Agrees(x.(table := x.table.(buckets := x.table.buckets[key := b]), all := x.all[key := b]), s)
  {
  }

  lemma TakeIsHeld(b: Bucket, l: RateLimit, amount: real, now: real)
    requires ValidLimit(l) && Sound(b, l) && amount >= 0.0
    ensures Held(Take(b, l, amount, now).0, l)
  {
    TakeIsSound(b, l, amount, now);
  }

  datatype Op = TakeOp(key: Key, amount: real, now: real) | SweepOp(now: real)

  function TableStep(t: Table, s: Settings, op: Op): (Table, Option<Taken>)
    requires ValidSettings(s)
  {
    match op
    case TakeOp(key, amount, now) => var (t', taken) := TableTake(t, s, key, amount, now); (t', Some(taken))
    case SweepOp(now) => (t.(buckets := Swept(t.buckets, now, s.idleTtl)), None)
  }

  /** The reference takes what the table does not refuse for capacity. */
  function Step(x: Tracked, s: Settings, op: Op): Tracked
    requires ValidSettings(s)
  {
    match op
    case SweepOp(now) => Moved(x, TableStep(x.table, s, op).0, x.all, now)
    case TakeOp(key, amount, now) =>
      var (t, taken) := TableTake(x.table, s, key, amount, now);
      Moved(x, t, if taken.Capacity? then x.all else KeepTake(x.all, s, key, amount, now).0, now)
  }

  function Moved(x: Tracked, t: Table, all: map<Key, Bucket>, now: real): Tracked {
    Tracked(t, all, Noted(x.dropped, x.table.buckets, t.buckets, now))
  }

  /** A take of a key whose bucket was dropped is not older than the drop. */
  predicate Timely(x: Tracked, op: Op) {
    op.TakeOp? ==>
      && op.amount >= 0.0
      && (op.key in x.table.buckets || op.key !in x.dropped || op.now >= x.dropped[op.key])
  }

  ghost predicate AllTimely(x: Tracked, s: Settings, ops: seq<Op>)
    requires ValidSettings(s)
    decreases |ops|
  {
    ops == [] || (Timely(x, ops[0]) && AllTimely(Step(x, s, ops[0]), s, ops[1..]))
  }

  lemma NothingDropped(x: Tracked, s: Settings, now: real)
    requires ValidSettings(s) && Agrees(x, s)
    ensures Agrees(x.(dropped := Noted(x.dropped, x.table.buckets, x.table.buckets, now)), s)
  {
  }

  lemma RoomAgrees(x: Tracked, s: Settings, now: real)
    requires ValidSettings(s) && Agrees(x, s)
    ensures var room := MadeRoom(x.table, s, now);
            && Agrees(Tracked(room, x.all, Noted(x.dropped, x.table.buckets, room.buckets, now)), s)
            && room.buckets.Keys <= x.table.buckets.Keys
  {
    SweepAgrees(x, s, now, Millis(now) + 1000);
    NothingDropped(x, s, now);
  }

  /** A bucket that is written is not dropped. */
  lemma NotedIgnoresWrite(dropped: map<Key, real>, before: map<Key, Bucket>, after: map<Key, Bucket>, now: real,
                          key: Key, b: Bucket)
    requires key in before ==> key in after
    ensures Noted(dropped, before, after[key := b], now) == Noted(dropped, before, after, now)
  {
  }

  lemma PresentTakeAgrees(x: Tracked, s: Settings, key: Key, amount: real, now: real)
    requires ValidSettings(s) && Agrees(x, s) && amount >= 0.0 && key in x.table.buckets
    ensures Agrees(Step(x, s, TakeOp(key, amount, now)), s)
    ensures TableTake(x.table, s, key, amount, now).1 == KeepTake(x.all, s, key, amount, now).1
  {
    var buckets := x.table.buckets;
    var y := x.(dropped := Noted(x.dropped, buckets, buckets, now));
    var b' := Take(x.all[key], s.limitOf(key), amount, now).0;
    NothingDropped(x, s, now);
    TakeIsHeld(x.all[key], s.limitOf(key), amount, now);
    BothWrite(y, s, key, b');
    NotedIgnoresWrite(x.dropped, buckets, buckets, now, key, b');
    assert Step(x, s, TakeOp(key, amount, now)) ==
           y.(table := x.table.(buckets := buckets[key := b']), all := x.all[key := b']);
  }

  /** A dropped bucket had refilled, so the new one answers like it. */
  lemma DroppedActsNew(x: Tracked, s: Settings, key: Key, amount: real, now: real)
    requires ValidSettings(s) && Agrees(x, s) && Timely(x, TakeOp(key, amount, now)) && key !in x.table.buckets
    ensures var l := s.limitOf(key);
            KeepTake(x.all, s, key, amount, now) ==
            (x.all[key := Take(NewBucket(l, now), l, amount, now).0], Take(NewBucket(l, now), l, amount, now).1)
  {
    if key in x.all {
      FullStaysFull(x.all[key], s.limitOf(key), x.dropped[key], now);
      FullActsNew(x.all[key], s.limitOf(key), amount, now);
    }
  }

  /** The table writes a new bucket for the key if there is room, and the reference the same one. */
  lemma PutNewAgrees(x: Tracked, s: Settings, room: Table, key: Key, made: (Bucket, Taken), now: real)
    requires ValidSettings(s) && key !in x.table.buckets && Agrees(Moved(x, room, x.all, now), s)
    requires Held(made.0, s.limitOf(key)) && !made.1.Capacity?
    ensures var (t, taken) := PutNew(room, s, key, made);
            Agrees(Moved(x, t, if taken.Capacity? then x.all else x.all[key := made.0], now), s)
  {
    NotedIgnoresWrite(x.dropped, x.table.buckets, room.buckets, now, key, made.0);
    BothWrite(Moved(x, room, x.all, now), s, key, made.0);
  }

  lemma AbsentTakeAgrees(x: Tracked, s: Settings, key: Key, amount: real, now: real)
    requires ValidSettings(s) && Agrees(x, s) && Timely(x, TakeOp(key, amount, now)) && key !in x.table.buckets
    ensures Agrees(Step(x, s, TakeOp(key, amount, now)), s)
  {
    var l, room := s.limitOf(key), MadeRoom(x.table, s, now);
    var made := Take(NewBucket(l, now), l, amount, now);
    RoomAgrees(x, s, now);
    DroppedActsNew(x, s, key, amount, now);
    TakeIsHeld(NewBucket(l, now), l, amount, now);
    PutNewAgrees(x, s, room, key, made, now);
  }

  lemma AbsentTakeAnswers(x: Tracked, s: Settings, key: Key, amount: real, now: real)
    requires ValidSettings(s) && Agrees(x, s) && Timely(x, TakeOp(key, amount, now)) && key !in x.table.buckets
    ensures var taken := TableTake(x.table, s, key, amount, now).1;
            if taken.Capacity? then |MadeRoom(x.table, s, now).buckets| >= s.maxEntries
            else taken == KeepTake(x.all, s, key, amount, now).1
  {
    DroppedActsNew(x, s, key, amount, now);
  }

  lemma TakeAgrees(x: Tracked, s: Settings, key: Key, amount: real, now: real)
    requires ValidSettings(s) && Agrees(x, s) && Timely(x, TakeOp(key, amount, now))
    ensures Agrees(Step(x, s, TakeOp(key, amount, now)), s)
    ensures var taken := TableTake(x.table, s, key, amount, now).1;
            if taken.Capacity? then key !in x.table.buckets && |MadeRoom(x.table, s, now).buckets| >= s.maxEntries
            else taken == KeepTake(x.all, s, key, amount, now).1
  {
    if key in x.table.buckets {
      PresentTakeAgrees(x, s, key, amount, now);
    } else {
      AbsentTakeAgrees(x, s, key, amount, now);
      AbsentTakeAnswers(x, s, key, amount, now);
    }
  }

  lemma StepAgrees(x: Tracked, s: Settings, op: Op)
    requires ValidSettings(s) && Agrees(x, s) && Timely(x, op)
    ensures Agrees(Step(x, s, op), s)
  {
    match op {
      case SweepOp(now) => SweepAgrees(x, s, now, x.table.nextFullSweepMs);
      case TakeOp(key, amount, now) => TakeAgrees(x, s, key, amount, now);
    }
  }

  /** The answers of the table, and those of the reference given the takes that were not refused for
      capacity. */
  function Answers(x: Tracked, s: Settings, ops: seq<Op>): seq<(Taken, Taken)>
    requires ValidSettings(s)
    decreases |ops|
  {
    if ops == [] then []
    else
      var rest := Answers(Step(x, s, ops[0]), s, ops[1..]);
      match ops[0]
      case SweepOp(_) => rest
      case TakeOp(key, amount, now) =>
        [(TableTake(x.table, s, key, amount, now).1, KeepTake(x.all, s, key, amount, now).1)] + rest
  }

  /** Sweeping at arbitrary times is unobservable: over every run, each take is answered as if every
      bucket had been kept forever, capacity refusals aside. The clocks of different keys may come in any
      order, as long as no take of a dropped key is older than its drop. */
  lemma {:induction false} SweepIsUnobservable(x: Tracked, s: Settings, ops: seq<Op>)
    requires ValidSettings(s) && Agrees(x, s) && AllTimely(x, s, ops)
    ensures forall i :: 0 <= i < |Answers(x, s, ops)| ==>
              Answers(x, s, ops)[i].0.Capacity? || Answers(x, s, ops)[i].0 == Answers(x, s, ops)[i].1
    decreases |ops|
  {
    if ops != [] {
      StepAgrees(x, s, ops[0]);
      if ops[0].TakeOp? { TakeAgrees(x, s, ops[0].key, ops[0].amount, ops[0].now); }
      SweepIsUnobservable(Step(x, s, ops[0]), s, ops[1..]);
    }
  }

  ghost predicate InOrder(time: real, ops: seq<Op>)
    decreases |ops|
  {
    ops == [] || (ops[0].now >= time && (ops[0].TakeOp? ==> ops[0].amount >= 0.0) && InOrder(ops[0].now, ops[1..]))
  }

  /** One clock for all operations is enough. */
  lemma {:induction false} OrderIsTimely(x: Tracked, s: Settings, time: real, ops: seq<Op>)
    requires ValidSettings(s) && InOrder(time, ops) && forall k :: k in x.dropped ==> x.dropped[k] <= time
    ensures AllTimely(x, s, ops)
    decreases |ops|
  {
    if ops != [] { OrderIsTimely(Step(x, s, ops[0]), s, ops[0].now, ops[1..]); }
  }

  lemma BurstEmptiesBucket(l: RateLimit, now: real)
    requires ValidLimit(l)
    ensures Take(NewBucket(l, now), l, l.burst, now) == (Bucket(0.0, now, l.burst / l.perSecond), Admitted)
    ensures Take(Bucket(0.0, now, l.burst / l.perSecond), l, l.burst, now).1.Limited?
  {
    assert Max(now - now, 0.0) == 0.0 && 0.0 * l.perSecond == 0.0;
  }

  function Emptied(s: Settings, key: Key, now: real): Tracked
    requires ValidSettings(s)
  {
    Step(FRESH, s, TakeOp(key, s.limitOf(key).burst, now))
  }

  lemma EmptiedIs(s: Settings, key: Key, now: real)
    requires ValidSettings(s) && s.maxEntries > 0
    ensures var b := Bucket(0.0, now, s.limitOf(key).burst / s.limitOf(key).perSecond);
            Emptied(s, key, now).all == Emptied(s, key, now).table.buckets == map[key := b]
  {
    var empty: map<Key, Bucket> := map[];
    assert |empty| == 0;
    BurstEmptiesBucket(s.limitOf(key), now);
  }

  /** The condition is needed, whatever the settings: the burst is taken, the bucket is swept once it has
      refilled, and a late take with the first clock finds a full bucket where the reference refuses. */
  lemma LateTakeFindsFullBucket(s: Settings, key: Key, now: real, later: real)
    requires ValidSettings(s) && s.maxEntries > 0
    requires later - now >= s.idleTtl && later - now >= s.limitOf(key).burst / s.limitOf(key).perSecond
    ensures var x := Step(Emptied(s, key, now), s, SweepOp(later));
            && x.table.buckets == map[] && key in x.all
            && KeepTake(x.all, s, key, s.limitOf(key).burst, now).1.Limited?
            && TableTake(x.table, s, key, s.limitOf(key).burst, now).1.Admitted?
  {
    var l, x := s.limitOf(key), Step(Emptied(s, key, now), s, SweepOp(later));
    EmptiedIs(s, key, now);
    Divides(l);
    SweptAway(Bucket(0.0, now, l.burst / l.perSecond), key, later, s.idleTtl);
    BurstEmptiesBucket(l, now);
    var empty: map<Key, Bucket> := map[];
    assert |empty| == 0 && x.table.buckets == empty;
  }

  lemma SweptAway(b: Bucket, key: Key, later: real, idleTtl: real)
    requires later - b.updated >= idleTtl && later - b.updated >= b.fullAfter > 0.0
    ensures Swept(map[key := b], later, idleTtl) == map[]
  {
  }

  const FRESH: Tracked := Tracked(Table(map[], 0), map[], map[])

  // ----- What a key is admitted by the table -----

  function StateAfter(x: Tracked, s: Settings, ops: seq<Op>): Tracked
    requires ValidSettings(s)
    decreases |ops|
  {
    if ops == [] then x else StateAfter(Step(x, s, ops[0]), s, ops[1..])
  }

  function AdmittedOp(t: Table, s: Settings, key: Key, op: Op): real
    requires ValidSettings(s)
  {
    if op.TakeOp? && op.key == key && TableTake(t, s, key, op.amount, op.now).1.Admitted? then op.amount else 0.0
  }

  function AdmittedTo(t: Table, s: Settings, key: Key, ops: seq<Op>): real
    requires ValidSettings(s)
    decreases |ops|
  {
    if ops == [] then 0.0
    else AdmittedOp(t, s, key, ops[0]) + AdmittedTo(TableStep(t, s, ops[0]).0, s, key, ops[1..])
  }

  /** The tokens a key would find in the reference at `time`. */
  function Available(all: map<Key, Bucket>, l: RateLimit, key: Key, time: real): real {
    if key in all then Min(all[key].tokens + Gain(l, all[key].updated, time), l.burst) else l.burst
  }

  /** The takes of the key come in order, from `lo` to `hi`. */
  ghost predicate KeyInOrder(ops: seq<Op>, key: Key, lo: real, hi: real)
    decreases |ops|
  {
    if ops == [] then lo <= hi
    else if ops[0].TakeOp? && ops[0].key == key then lo <= ops[0].now && KeyInOrder(ops[1..], key, ops[0].now, hi)
    else KeyInOrder(ops[1..], key, lo, hi)
  }

  predicate LastTaken(x: Tracked, key: Key, time: real) { key in x.all ==> x.all[key].updated <= time }

  lemma GainIsPositive(l: RateLimit, from: real, to: real)
    requires l.perSecond > 0.0 && from <= to
    ensures Gain(l, from, to) >= 0.0
  {
    Scale(0.0, to - from, l.perSecond);
  }

  lemma AvailableGrows(all: map<Key, Bucket>, l: RateLimit, key: Key, time: real, later: real)
    requires ValidLimit(l) && time <= later && (key in all ==> Sound(all[key], l) && all[key].updated <= time)
    ensures 0.0 <= Available(all, l, key, time)
    ensures Available(all, l, key, later) <= Available(all, l, key, time) + Gain(l, time, later)
  {
    GainIsPositive(l, time, later);
    if key in all {
      GainIsPositive(l, all[key].updated, time);
      GainSplits(l, all[key].updated, time, later);
    }
  }

  /** A take of the key spends what it admits. */
  lemma TakeOpSpends(x: Tracked, s: Settings, op: Op, time: real)
    requires ValidSettings(s) && Agrees(x, s) && op.TakeOp? && Timely(x, op)
    requires LastTaken(x, op.key, time) && time <= op.now
    ensures LastTaken(Step(x, s, op), op.key, op.now)
    ensures var l := s.limitOf(op.key);
            AdmittedOp(x.table, s, op.key, op) + Available(Step(x, s, op).all, l, op.key, op.now)
            <= Available(x.all, l, op.key, op.now)
  {
    var l, key := s.limitOf(op.key), op.key;
    TakeAgrees(x, s, key, op.amount, op.now);
    TakeSpends(if key in x.all then x.all[key] else NewBucket(l, op.now), l, op.amount, op.now);
    assert Gain(l, op.now, op.now) == 0.0;
  }

  lemma TakeSpends(b: Bucket, l: RateLimit, amount: real, now: real)
    requires ValidLimit(l) && Sound(b, l) && b.updated <= now && amount >= 0.0
    ensures var (b', taken) := Take(b, l, amount, now);
            && b'.updated == now
            && (if taken.Admitted? then amount else 0.0) + Min(b'.tokens + Gain(l, now, now), l.burst)
               == Min(b.tokens + Gain(l, b.updated, now), l.burst)
  {
    assert Gain(l, now, now) == 0.0;
    assert Max(now - b.updated, 0.0) == now - b.updated;
  }

  /** Operations on other keys leave the reference bucket of the key alone. */
  lemma OtherOpSpares(x: Tracked, s: Settings, op: Op, key: Key)
    requires ValidSettings(s) && !(op.TakeOp? && op.key == key)
    ensures Lookup(Step(x, s, op).all, key) == Lookup(x.all, key) && AdmittedOp(x.table, s, key, op) == 0.0
  {
  }

  lemma {:induction false} OpsSpend(x: Tracked, s: Settings, ops: seq<Op>, key: Key, lo: real, hi: real)
    requires ValidSettings(s) && Agrees(x, s) && AllTimely(x, s, ops)
    requires KeyInOrder(ops, key, lo, hi) && LastTaken(x, key, lo)
    ensures Agrees(StateAfter(x, s, ops), s) && LastTaken(StateAfter(x, s, ops), key, hi) && lo <= hi
    ensures var l := s.limitOf(key);
            AdmittedTo(x.table, s, key, ops) <= Available(x.all, l, key, lo) + Gain(l, lo, hi)
    decreases |ops|
  {
    var l := s.limitOf(key);
    if ops == [] {
      AvailableGrows(x.all, l, key, lo, hi);
      GainIsPositive(l, lo, hi);
    } else {
      var op, x' := ops[0], Step(x, s, ops[0]);
      StepAgrees(x, s, op);
      if op.TakeOp? && op.key == key {
        TakeOpSpends(x, s, op, lo);
        AvailableGrows(x.all, l, key, lo, op.now);
        OpsSpend(x', s, ops[1..], key, op.now, hi);
        GainSplits(l, lo, op.now, hi);
      } else {
        OtherOpSpares(x, s, op, key);
        OpsSpend(x', s, ops[1..], key, lo, hi);
      }
    }
  }

  /** Over every run of the table, whatever is swept and whatever other keys do: between any two instants a
      key whose own takes come in order is admitted at most its burst plus its rate times the time between
      them. */
  lemma TableWindowBound(s: Settings, before: seq<Op>, window: seq<Op>, key: Key, start: real, from: real, to: real)
    requires ValidSettings(s) && AllTimely(FRESH, s, before) && AllTimely(StateAfter(FRESH, s, before), s, window)
    requires KeyInOrder(before, key, start, from) && KeyInOrder(window, key, from, to)
    ensures var l := s.limitOf(key);
            AdmittedTo(StateAfter(FRESH, s, before).table, s, key, window) <= l.burst + Gain(l, from, to)
  {
    EmptyAgrees(s);
    OpsSpend(FRESH, s, before, key, start, from);
    OpsSpend(StateAfter(FRESH, s, before), s, window, key, from, to);
  }

  class BucketTable {
    var buckets: map<Key, Bucket>
    var nextFullSweepMs: nat

    ghost function Contents(): Table
      reads this
    {
      Table(buckets, nextFullSweepMs)
    }

    constructor ()
      ensures Contents() == Table(map[], 0)
    {
      buckets, nextFullSweepMs := map[], 0;
    }

    method ClaimFullSweep(now: real) returns (claimed: bool)
      modifies this`nextFullSweepMs
      ensures claimed == (Millis(now) >= old(nextFullSweepMs))
      ensures nextFullSweepMs == if claimed then Millis(now) + 1000 else old(nextFullSweepMs)
    {
      claimed := Millis(now) >= nextFullSweepMs;
      if claimed {
        nextFullSweepMs := Millis(now) + 1000;
      }
    }

    method Sweep(now: real, idleTtl: real)
      modifies this`buckets
      ensures buckets == Swept(old(buckets), now, idleTtl)
    {
      buckets := map k | k in buckets && Max(now - buckets[k].updated, 0.0) < Max(buckets[k].fullAfter, idleTtl) ::
        buckets[k];
    }

    method TakeTokens(s: Settings, key: Key, amount: real, now: real) returns (taken: Taken)
      requires ValidSettings(s)
      modifies this
      ensures Contents() == TableTake(old(Contents()), s, key, amount, now).0
      ensures taken == TableTake(old(Contents()), s, key, amount, now).1
    {
      var l := s.limitOf(key);
      if key in buckets {
        var (b, answer) := Take(buckets[key], l, amount, now);
        buckets := buckets[key := b];
        return answer;
      }
      if |buckets| >= s.maxEntries {
        var claimed := ClaimFullSweep(now);
        if claimed {
          Sweep(now, s.idleTtl);
        }
        if |buckets| >= s.maxEntries {
          return Capacity;
        }
      }
      var (b, answer) := Take(NewBucket(l, now), l, amount, now);
      buckets := buckets[key := b];
      return answer;
    }
  }

  lemma EmptyAgrees(s: Settings)
    requires ValidSettings(s)
    ensures Agrees(FRESH, s)
  {
  }
}

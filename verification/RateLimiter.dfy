/** The per-client token buckets of the DNS front end, with idle pruning and a cap on their number. */
module RateLimits {
  import opened Options
  import opened Ordering

  /** Instants are seconds; arithmetic is over the reals. */
  const IDLE_LIMIT := 300.0
  const PRUNE_INTERVAL := 60.0
  const DEFAULT_MAX_BUCKETS := 10000

  datatype Bucket = Bucket(tokens: real, seen: real)
  type Buckets = map<string, Bucket>
  datatype Config = Config(qps: real, burst: real, maxBuckets: int)
  datatype State = State(buckets: Buckets, nextPrune: Option<real>)
  datatype Call = Call(key: string, now: real)

  predicate ValidConfig(cfg: Config) {
    cfg.qps > 0.0 && cfg.burst > 0.0 && cfg.maxBuckets >= 1
  }

  // ----- one step

  /** Tokens earned between two clock readings; negative when the clock went back. */
  function Gain(cfg: Config, seen: real, now: real): real { (now - seen) * cfg.qps }

  function Refilled(cfg: Config, b: Bucket, now: real): real {
    var tokens := b.tokens + Gain(cfg, b.seen, now);
    if tokens > cfg.burst then cfg.burst else tokens
  }

  predicate Allows(cfg: Config, b: Bucket, now: real) { Refilled(cfg, b, now) >= 1.0 }

  function Used(cfg: Config, b: Bucket, now: real): Bucket {
    Bucket(Refilled(cfg, b, now) - (if Allows(cfg, b, now) then 1.0 else 0.0), now)
  }

  predicate PruneDue(s: State, now: real) { s.nextPrune.None? || now > s.nextPrune.value }

  predicate Idle(b: Bucket, now: real) { now - b.seen > IDLE_LIMIT }

  function WithoutIdle(m: Buckets, now: real): Buckets {
    map k | k in m && !Idle(m[k], now) :: m[k]
  }

  function Pruned(s: State, now: real): Buckets {
    if PruneDue(s, now) then WithoutIdle(s.buckets, now) else s.buckets
  }

  /** The bucket a call uses: the one kept for its key, or a full new one. */
  function BucketFor(cfg: Config, m: Buckets, key: string, now: real): Bucket {
    if key in m then m[key] else Bucket(cfg.burst, now)
  }

  ghost predicate Submap(a: Buckets, b: Buckets) {
    forall k | k in a :: k in b && a[k] == b[k]
  }

  /** `m'` is `m` cut down to `max` buckets by dropping the least recently seen ones other than `exempt`. */
  ghost predicate Trimmed(m: Buckets, m': Buckets, exempt: string, max: int) {
    && Submap(m', m)
    && (|m| <= max ==> m' == m)
    && (|m| > max ==> |m'| == max)
    && (exempt in m ==> exempt in m')
    && (forall gone, kept | gone in m && gone !in m' && kept in m' && kept != exempt :: m[gone].seen <= m[kept].seen)
  }

  /** One call of Allow; ties in the trim leave the next state undetermined. */
  ghost predicate Next(cfg: Config, s: State, s': State, c: Call, ok: bool) {
    var m := Pruned(s, c.now);
    var b := BucketFor(cfg, m, c.key, c.now);
    && ok == Allows(cfg, b, c.now)
    && s'.nextPrune == (if PruneDue(s, c.now) then Some(c.now + PRUNE_INTERVAL) else s.nextPrune)
    && Trimmed(m[c.key := Used(cfg, b, c.now)], s'.buckets, c.key, cfg.maxBuckets)
  }

  const FRESH: State := State(map[], None)

  // ----- runs

  /** `ss[i]` is the state before call `i`, `oks[i]` its decision. */
  datatype Trace = Trace(ss: seq<State>, calls: seq<Call>, oks: seq<bool>)

  ghost predicate StepAt(cfg: Config, t: Trace, i: nat) {
    && i < |t.calls| && i + 1 < |t.ss| && i < |t.oks|
    && Next(cfg, t.ss[i], t.ss[i + 1], t.calls[i], t.oks[i])
  }

  ghost predicate IsRun(cfg: Config, t: Trace) {
    && ValidConfig(cfg)
    && |t.ss| == |t.calls| + 1 && |t.oks| == |t.calls|
    && t.ss[0] == FRESH
    && forall i: nat {:trigger StepAt(cfg, t, i)} | i < |t.calls| :: StepAt(cfg, t, i)
  }

  /** In every run the number of buckets stays within the limit. */
  lemma {:induction false} BucketCountBounded(cfg: Config, t: Trace, n: nat)
    requires IsRun(cfg, t) && n < |t.ss|
    ensures |t.ss[n].buckets| <= cfg.maxBuckets
  {
    if n > 0 { assert StepAt(cfg, t, n - 1); }
  }

  /** The caller keeps its bucket, and any other bucket lost was idle or seen no later than each one kept. */
  lemma EvictionIsFair(cfg: Config, t: Trace, n: nat, gone: string, kept: string)
    requires IsRun(cfg, t) && n < |t.calls|
    requires gone in t.ss[n].buckets && gone !in t.ss[n + 1].buckets
    requires kept in t.ss[n].buckets && kept in t.ss[n + 1].buckets && kept != t.calls[n].key
    ensures gone != t.calls[n].key
    ensures Idle(t.ss[n].buckets[gone], t.calls[n].now) || t.ss[n].buckets[gone].seen <= t.ss[n].buckets[kept].seen
  {
    var s, s', c := t.ss[n], t.ss[n + 1], t.calls[n];
    assert StepAt(cfg, t, n);
    var m := Pruned(s, c.now);
    var full := m[c.key := Used(cfg, BucketFor(cfg, m, c.key, c.now), c.now)];
    assert c.key in full;
    assert gone in full <==> gone in m;
    assert kept in full;
  }

  /** What a step does to the bucket of its caller and of anyone else. */
  lemma StepBuckets(cfg: Config, s: State, s': State, c: Call, ok: bool, key: string)
    requires Next(cfg, s, s', c, ok)
    ensures c.key in s'.buckets
    ensures s'.buckets[c.key] == Used(cfg, BucketFor(cfg, Pruned(s, c.now), c.key, c.now), c.now)
    ensures key in s'.buckets && key != c.key ==> key in s.buckets && s'.buckets[key] == s.buckets[key]
  {
    var m := Pruned(s, c.now);
    assert c.key in m[c.key := Used(cfg, BucketFor(cfg, m, c.key, c.now), c.now)];
  }

  // ----- the token-bucket bound

  /** Calls of `key` allowed among calls `lo` up to `hi`. */
  function Count(t: Trace, key: string, lo: nat, hi: nat): nat
    requires lo <= hi <= |t.calls| && |t.oks| == |t.calls|
    decreases hi
  {
    if lo == hi then 0
    else Count(t, key, lo, hi - 1) + (if t.calls[hi - 1].key == key && t.oks[hi - 1] then 1 else 0)
  }

  /** The bucket of `key` survives from call `i` up to call `k`: it is never pruned, trimmed or recreated. */
  ghost predicate SameBucket(t: Trace, key: string, i: nat, k: nat)
    requires i <= k < |t.calls| && |t.ss| == |t.calls| + 1
  {
    forall j | i < j <= k :: key in Pruned(t.ss[j], t.calls[j].now)
  }

  /** After `n` allowed calls since `start`, what the bucket still holds and what it gave out fit its refill. */
  predicate WithinBound(cfg: Config, b: Bucket, start: real, n: nat) {
    b.tokens + n as real <= cfg.burst + cfg.qps * (b.seen - start)
  }

  lemma BoundFirst(cfg: Config, b: Bucket, now: real)
    ensures WithinBound(cfg, Used(cfg, b, now), now, if Allows(cfg, b, now) then 1 else 0)
  {
    assert cfg.qps * (now - now) == 0.0;
  }

  lemma BoundNext(cfg: Config, b: Bucket, now: real, start: real, n: nat)
    requires WithinBound(cfg, b, start, n)
    ensures WithinBound(cfg, Used(cfg, b, now), start, n + if Allows(cfg, b, now) then 1 else 0)
  {
    assert cfg.qps * (b.seen - start) + Gain(cfg, b.seen, now) == cfg.qps * (now - start);
  }

  lemma {:induction false} Potential(cfg: Config, t: Trace, key: string, i: nat, m: nat)
    requires IsRun(cfg, t) && i <= m < |t.calls| && t.calls[i].key == key
    requires SameBucket(t, key, i, m)
    requires key in t.ss[m + 1].buckets
    ensures WithinBound(cfg, t.ss[m + 1].buckets[key], t.calls[i].now, Count(t, key, i, m + 1))
    decreases m
  {
    var s, c := t.ss[m], t.calls[m];
    assert StepAt(cfg, t, m);
    StepBuckets(cfg, s, t.ss[m + 1], c, t.oks[m], key);
    if m == i {
      BoundFirst(cfg, BucketFor(cfg, Pruned(s, c.now), key, c.now), c.now);
    } else {
      assert key in Pruned(t.ss[m], t.calls[m].now);
      Potential(cfg, t, key, i, m - 1);
      if c.key == key { BoundNext(cfg, s.buckets[key], c.now, t.calls[i].now, Count(t, key, i, m)); }
    }
  }

  /**
   Between two calls of one client on one bucket, the second of them allowed, at most
   burst + qps * elapsed calls were allowed, however the clock readings are ordered.
   */
  lemma AllowedBound(cfg: Config, t: Trace, key: string, i: nat, k: nat)
    requires IsRun(cfg, t) && i <= k < |t.calls|
    requires t.calls[i].key == key && t.calls[k].key == key && t.oks[k]
    requires SameBucket(t, key, i, k)
    ensures Count(t, key, i, k + 1) as real <= cfg.burst + cfg.qps * (t.calls[k].now - t.calls[i].now)
  {
    assert StepAt(cfg, t, k);
    StepBuckets(cfg, t.ss[k], t.ss[k + 1], t.calls[k], t.oks[k], key);
    Potential(cfg, t, key, i, k);
  }

  // ----- a client within its rate is never refused

  /** Calls of `key` are at least 1/qps apart. */
  ghost predicate Spaced(cfg: Config, t: Trace, key: string) {
    forall i, j | 0 <= i < j < |t.calls| && t.calls[i].key == key && t.calls[j].key == key ::
      Gain(cfg, t.calls[i].now, t.calls[j].now) >= 1.0
  }

  ghost predicate CalledAt(t: Trace, key: string, n: nat, time: real)
    requires n <= |t.calls|
  {
    exists i | 0 <= i < n :: t.calls[i].key == key && t.calls[i].now == time
  }

  /** A bucket present for `key` was last used by one of its earlier calls and is not overdrawn. */
  ghost predicate Solvent(t: Trace, key: string, n: nat)
    requires n <= |t.calls| && n < |t.ss|
  {
    key in t.ss[n].buckets ==>
      t.ss[n].buckets[key].tokens >= 0.0 && CalledAt(t, key, n, t.ss[n].buckets[key].seen)
  }

  lemma SolventStep(cfg: Config, t: Trace, key: string, n: nat)
    requires IsRun(cfg, t) && n < |t.calls| && cfg.burst >= 1.0 && Spaced(cfg, t, key)
    requires Solvent(t, key, n)
    ensures Solvent(t, key, n + 1) && (t.calls[n].key == key ==> t.oks[n])
  {
    var s, s', c := t.ss[n], t.ss[n + 1], t.calls[n];
    assert StepAt(cfg, t, n);
    StepBuckets(cfg, s, s', c, t.oks[n], key);
    if c.key == key {
      if key in Pruned(s, c.now) {
        var i :| 0 <= i < n && t.calls[i].key == key && t.calls[i].now == s.buckets[key].seen;
        assert Gain(cfg, t.calls[i].now, t.calls[n].now) >= 1.0;
        SpacedAllowed(cfg, s.buckets[key], c.now);
      } else {
        FullAllowed(cfg, c.now);
      }
      assert CalledAt(t, key, n + 1, c.now);
    }
  }

  /** A client that spaces its calls is never refused, whatever pruning or eviction does to its bucket. */
  lemma {:induction false} SpacedNeverRefused(cfg: Config, t: Trace, key: string, n: nat)
    requires IsRun(cfg, t) && n <= |t.calls|
    requires cfg.burst >= 1.0 && Spaced(cfg, t, key)
    ensures Solvent(t, key, n)
    ensures forall i | 0 <= i < n && t.calls[i].key == key :: t.oks[i]
  {
    if n > 0 {
      SpacedNeverRefused(cfg, t, key, n - 1);
      SolventStep(cfg, t, key, n - 1);
    }
  }

  lemma SpacedAllowed(cfg: Config, b: Bucket, now: real)
    requires b.tokens >= 0.0 && Gain(cfg, b.seen, now) >= 1.0 && cfg.burst >= 1.0
    ensures Allows(cfg, b, now) && Used(cfg, b, now).tokens >= 0.0
  {
    assert Refilled(cfg, b, now) >= 1.0;
  }

  lemma FullAllowed(cfg: Config, now: real)
    requires cfg.burst >= 1.0
    ensures Allows(cfg, Bucket(cfg.burst, now), now) && Used(cfg, Bucket(cfg.burst, now), now).tokens >= 0.0
  {
    var b := Bucket(cfg.burst, now);
    assert Gain(cfg, now, now) == 0.0;
    assert Refilled(cfg, b, now) == cfg.burst;
  }

  // ----- pruning is invisible exactly when an idle bucket refills

  /** The limiter that never forgets a bucket. */
  function RefNext(cfg: Config, r: Buckets, c: Call): Buckets {
    r[c.key := Used(cfg, BucketFor(cfg, r, c.key, c.now), c.now)]
  }

  predicate RefAllows(cfg: Config, r: Buckets, c: Call) {
    Allows(cfg, BucketFor(cfg, r, c.key, c.now), c.now)
  }

  function RefRun(cfg: Config, calls: seq<Call>): Buckets {
    if calls == [] then map[] else RefNext(cfg, RefRun(cfg, calls[..|calls| - 1]), calls[|calls| - 1])
  }

  ghost predicate Monotone(calls: seq<Call>) {
    forall i, j | 0 <= i < j < |calls| :: calls[i].now <= calls[j].now
  }

  function Clients(calls: seq<Call>): set<string> { set c | c in calls :: c.key }

  /** What a limiter that prunes still knows: every bucket it dropped is full again. */
  ghost predicate Simulates(cfg: Config, m: Buckets, r: Buckets, now: real) {
    && (forall k | k in m :: k in r && m[k] == r[k])
    && (forall k | k in r :: r[k].tokens >= 0.0 && r[k].seen <= now)
    && (forall k | k in r && k !in m :: Refilled(cfg, r[k], now) == cfg.burst)
  }

  lemma GainMonotone(cfg: Config, seen: real, now: real, now': real)
    requires ValidConfig(cfg) && now <= now'
    ensures Gain(cfg, seen, now) <= Gain(cfg, seen, now')
  {
    assert Gain(cfg, seen, now') - Gain(cfg, seen, now) == (now' - now) * cfg.qps;
    assert (now' - now) * cfg.qps >= 0.0;
  }

  lemma LaterStillFull(cfg: Config, b: Bucket, now: real, now': real)
    requires ValidConfig(cfg) && now <= now' && Refilled(cfg, b, now) == cfg.burst
    ensures Refilled(cfg, b, now') == cfg.burst
  {
    GainMonotone(cfg, b.seen, now, now');
  }

  lemma IdleIsFull(cfg: Config, b: Bucket, now: real)
    requires ValidConfig(cfg) && IDLE_LIMIT * cfg.qps >= cfg.burst && b.tokens >= 0.0 && Idle(b, now)
    ensures Refilled(cfg, b, now) == cfg.burst
  {
    GainMonotone(cfg, b.seen, b.seen + IDLE_LIMIT, now);
    assert Gain(cfg, b.seen, b.seen + IDLE_LIMIT) == IDLE_LIMIT * cfg.qps;
  }

  lemma PrunedSimulates(cfg: Config, s: State, r: Buckets, now: real, now': real)
    requires ValidConfig(cfg) && IDLE_LIMIT * cfg.qps >= cfg.burst && now <= now'
    requires Simulates(cfg, s.buckets, r, now)
    ensures Simulates(cfg, Pruned(s, now'), r, now')
  {
    var m := Pruned(s, now');
    forall k | k in r && k !in m ensures Refilled(cfg, r[k], now') == cfg.burst {
      if k in s.buckets { IdleIsFull(cfg, r[k], now'); } else { LaterStillFull(cfg, r[k], now, now'); }
    }
  }

  lemma UsedNotOverdrawn(cfg: Config, b: Bucket, now: real)
    requires ValidConfig(cfg) && b.tokens >= 0.0 && b.seen <= now
    ensures Used(cfg, b, now).tokens >= 0.0
  {
    GainMonotone(cfg, b.seen, b.seen, now);
    assert Gain(cfg, b.seen, b.seen) == 0.0;
    assert Refilled(cfg, b, now) >= 0.0;
  }

  lemma UsedSimulates(cfg: Config, m: Buckets, r: Buckets, c: Call)
    requires ValidConfig(cfg) && Simulates(cfg, m, r, c.now)
    ensures Allows(cfg, BucketFor(cfg, m, c.key, c.now), c.now) == RefAllows(cfg, r, c)
    ensures Simulates(cfg, m[c.key := Used(cfg, BucketFor(cfg, m, c.key, c.now), c.now)], RefNext(cfg, r, c), c.now)
  {
    var b, b' := BucketFor(cfg, m, c.key, c.now), BucketFor(cfg, r, c.key, c.now);
    FreshIsFull(cfg, c.now);
    if c.key in m {
      assert b == b' == r[c.key];
    } else if c.key in r {
      assert b' == r[c.key] && Refilled(cfg, b', c.now) == cfg.burst;
    } else {
      assert b == b' == Bucket(cfg.burst, c.now);
    }
    assert Refilled(cfg, b, c.now) == Refilled(cfg, b', c.now);
    UsedNotOverdrawn(cfg, b', c.now);
    var used := Used(cfg, b', c.now);
    assert Used(cfg, b, c.now) == used && used.seen == c.now;
    var m', r' := m[c.key := used], r[c.key := used];
    assert RefNext(cfg, r, c) == r';
    forall k | k in r' && k !in m' ensures Refilled(cfg, r'[k], c.now) == cfg.burst {
      assert k in r && k !in m && r'[k] == r[k];
    }
  }

  lemma FreshIsFull(cfg: Config, now: real)
    ensures Refilled(cfg, Bucket(cfg.burst, now), now) == cfg.burst
  {
    assert Gain(cfg, now, now) == 0.0;
  }

  /** With few enough clients a step never trims. */
  lemma NeverTrims(cfg: Config, s: State, s': State, c: Call, ok: bool, clients: set<string>)
    requires Next(cfg, s, s', c, ok)
    requires s.buckets.Keys <= clients && c.key in clients && |clients| <= cfg.maxBuckets
    ensures s'.buckets == Pruned(s, c.now)[c.key := Used(cfg, BucketFor(cfg, Pruned(s, c.now), c.key, c.now), c.now)]
    ensures s'.buckets.Keys <= clients
  {
    var full := Pruned(s, c.now)[c.key := Used(cfg, BucketFor(cfg, Pruned(s, c.now), c.key, c.now), c.now)];
    assert full.Keys <= clients;
    SubsetSize(full.Keys, clients);
    assert |full| == |full.Keys|;
  }

  lemma SimulationStep(cfg: Config, s: State, s': State, r: Buckets, last: real, c: Call, ok: bool,
                       clients: set<string>)
    requires ValidConfig(cfg) && Next(cfg, s, s', c, ok) && last <= c.now
    requires IDLE_LIMIT * cfg.qps >= cfg.burst
    requires s.buckets.Keys <= clients && c.key in clients && |clients| <= cfg.maxBuckets
    requires Simulates(cfg, s.buckets, r, last)
    ensures ok == RefAllows(cfg, r, c)
    ensures Simulates(cfg, s'.buckets, RefNext(cfg, r, c), c.now) && s'.buckets.Keys <= clients
  {
    NeverTrims(cfg, s, s', c, ok, clients);
    PrunedSimulates(cfg, s, r, last, c.now);
    UsedSimulates(cfg, Pruned(s, c.now), r, c);
  }

  /** Call `i` is decided as by the limiter that never prunes. */
  predicate AgreesAt(cfg: Config, t: Trace, i: nat)
    requires |t.oks| == |t.calls| && i < |t.calls|
  {
    t.oks[i] == RefAllows(cfg, RefRun(cfg, t.calls[..i]), t.calls[i])
  }

  /** With a monotone clock, idle buckets that refill and few enough clients, pruning changes no decision. */
  lemma {:induction false} PruningInvisible(cfg: Config, t: Trace, n: nat)
    requires IsRun(cfg, t) && Monotone(t.calls) && n <= |t.calls|
    requires IDLE_LIMIT * cfg.qps >= cfg.burst
    requires |Clients(t.calls)| <= cfg.maxBuckets
    ensures t.ss[n].buckets.Keys <= Clients(t.calls)
    ensures n > 0 ==> Simulates(cfg, t.ss[n].buckets, RefRun(cfg, t.calls[..n]), t.calls[n - 1].now)
    ensures forall i {:trigger AgreesAt(cfg, t, i)} | 0 <= i < n :: AgreesAt(cfg, t, i)
  {
    if n > 0 {
      PruningInvisible(cfg, t, n - 1);
      InvisibleStep(cfg, t, n - 1);
    }
  }

  lemma InvisibleStep(cfg: Config, t: Trace, n: nat)
    requires IsRun(cfg, t) && Monotone(t.calls) && n < |t.calls|
    requires IDLE_LIMIT * cfg.qps >= cfg.burst && |Clients(t.calls)| <= cfg.maxBuckets
    requires t.ss[n].buckets.Keys <= Clients(t.calls)
    requires n > 0 ==> Simulates(cfg, t.ss[n].buckets, RefRun(cfg, t.calls[..n]), t.calls[n - 1].now)
    ensures t.ss[n + 1].buckets.Keys <= Clients(t.calls)
    ensures Simulates(cfg, t.ss[n + 1].buckets, RefRun(cfg, t.calls[..n + 1]), t.calls[n].now)
    ensures AgreesAt(cfg, t, n)
  {
    var c, r, before := t.calls[n], RefRun(cfg, t.calls[..n]), if n > 0 then t.calls[n - 1].now else t.calls[n].now;
    assert StepAt(cfg, t, n);
    assert c in t.calls;
    RefOneMore(cfg, t.calls, n);
    if n == 0 { NothingSimulates(cfg, before); }
    SimulationStep(cfg, t.ss[n], t.ss[n + 1], r, before, c, t.oks[n], Clients(t.calls));
  }

  lemma RefOneMore(cfg: Config, calls: seq<Call>, n: nat)
    requires n < |calls|
    ensures RefRun(cfg, calls[..n + 1]) == RefNext(cfg, RefRun(cfg, calls[..n]), calls[n])
    ensures n == 0 ==> RefRun(cfg, calls[..n]) == map[]
  {
    assert calls[..n + 1][..n] == calls[..n];
  }

  lemma NothingSimulates(cfg: Config, now: real)
    ensures Simulates(cfg, map[], map[], now)
  {
  }

  /** No run with a monotone clock and few enough clients can tell the limiter from one that never prunes. */
  ghost predicate NeverNoticed(cfg: Config) {
    forall t, i | IsRun(cfg, t) && Monotone(t.calls) && |Clients(t.calls)| <= cfg.maxBuckets && 0 <= i < |t.calls| ::
      AgreesAt(cfg, t, i)
  }

  /** Pruning is invisible exactly when an idle bucket has had the time to refill. */
  lemma PruningInvisibleIff(cfg: Config, qps: nat, burst: nat)
    requires ValidConfig(cfg) && cfg.qps == qps as real && cfg.burst == burst as real
    ensures NeverNoticed(cfg) <==> 300 * qps >= burst
  {
    if 300 * qps >= burst {
      forall t, i | IsRun(cfg, t) && Monotone(t.calls) && |Clients(t.calls)| <= cfg.maxBuckets && 0 <= i < |t.calls|
        ensures AgreesAt(cfg, t, i)
      {
        PruningInvisible(cfg, t, |t.calls|);
      }
    } else {
      PruningShows(cfg, qps, burst);
    }
  }

  // ----- the run that shows it: drain a bucket, wait just over five minutes, drain again

  /** Just over five minutes, by less than the time one token takes. */
  function Later(qps: nat): real
    requires qps > 0
  {
    IDLE_LIMIT + 0.5 / qps as real
  }

  function DrainTwice(qps: nat, burst: nat, n: nat): (calls: seq<Call>)
    requires qps > 0
    ensures |calls| == n
  {
    seq(n, i => Call("client", if i < burst then 0.0 else Later(qps)))
  }

  /** Tokens left after `i` of the calls, in the limiter and in the one that never prunes. */
  function Left(burst: nat, i: nat): real { (if i <= burst then burst - i else 2 * burst - i) as real }

  function RefLeft(qps: nat, burst: nat, i: nat): real {
    if i <= burst then (burst - i) as real else (300 * qps + burst - i) as real + 0.5
  }

  function DrainState(qps: nat, burst: nat, i: nat): State
    requires qps > 0
  {
    if i == 0 then FRESH
    else
      var now := if i <= burst then 0.0 else Later(qps);
      State(map["client" := Bucket(Left(burst, i), now)], Some(now + PRUNE_INTERVAL))
  }

  lemma UseAtOnce(cfg: Config, b: Bucket)
    requires b.tokens <= cfg.burst
    ensures Refilled(cfg, b, b.seen) == b.tokens
  {
    assert Gain(cfg, b.seen, b.seen) == 0.0;
  }

  lemma LaterRefill(cfg: Config, qps: nat)
    requires qps > 0 && cfg.qps == qps as real && cfg.burst > 300.0 * qps as real + 0.5
    ensures Refilled(cfg, Bucket(0.0, 0.0), Later(qps)) == 300.0 * qps as real + 0.5
  {
    var q := qps as real;
    assert Gain(cfg, 0.0, Later(qps)) == 300.0 * q + 0.5 / q * q;
    assert 0.5 / q * q == 0.5;
  }

  lemma DrainStep(cfg: Config, qps: nat, burst: nat, i: nat)
    requires ValidConfig(cfg) && cfg.qps == qps as real && cfg.burst == burst as real && 300 * qps < burst
    requires qps > 0 && i <= burst + 300 * qps
    ensures Next(cfg, DrainState(qps, burst, i), DrainState(qps, burst, i + 1), DrainTwice(qps, burst, i + 1)[i], true)
  {
    var s, s', c := DrainState(qps, burst, i), DrainState(qps, burst, i + 1), DrainTwice(qps, burst, i + 1)[i];
    var m := Pruned(s, c.now);
    var b := BucketFor(cfg, m, c.key, c.now);
    assert 0.5 / qps as real > 0.0;
    assert b == Bucket(Left(burst, if i == burst then 0 else i), c.now);
    UseAtOnce(cfg, b);
    var full := m[c.key := Used(cfg, b, c.now)];
    assert full == s'.buckets;
    assert full.Keys == {"client"};
    assert |full| == |full.Keys| == 1;
  }

  /** The bucket that call number `i` finds in the limiter that never prunes. */
  function RefBefore(qps: nat, burst: nat, i: nat): Bucket
    requires qps > 0 && i > 0
  {
    Bucket(RefLeft(qps, burst, i - 1), if i <= burst + 1 then 0.0 else Later(qps))
  }

  lemma RefDrainStep(cfg: Config, qps: nat, burst: nat, i: nat)
    requires ValidConfig(cfg) && cfg.qps == qps as real && cfg.burst == burst as real && 300 * qps < burst
    requires qps > 0 && 1 <= i <= burst + 300 * qps
    ensures
      var now := if i <= burst then 0.0 else Later(qps);
      Used(cfg, RefBefore(qps, burst, i), now) == Bucket(RefLeft(qps, burst, i), now)
  {
    if i == burst + 1 { LaterRefill(cfg, qps); } else { UseAtOnce(cfg, RefBefore(qps, burst, i)); }
  }

  lemma {:induction false} RefDrain(cfg: Config, qps: nat, burst: nat, i: nat)
    requires ValidConfig(cfg) && cfg.qps == qps as real && cfg.burst == burst as real && 300 * qps < burst
    requires qps > 0 && 1 <= i <= burst + 300 * qps
    ensures RefRun(cfg, DrainTwice(qps, burst, i))
         == map["client" := Bucket(RefLeft(qps, burst, i), if i <= burst then 0.0 else Later(qps))]
  {
    var calls := DrainTwice(qps, burst, i);
    assert calls[..i - 1] == DrainTwice(qps, burst, i - 1);
    var c, r := calls[i - 1], RefRun(cfg, calls[..i - 1]);
    if i > 1 { RefDrain(cfg, qps, burst, i - 1); }
    RefDrainStep(cfg, qps, burst, i);
    assert BucketFor(cfg, r, c.key, c.now) == RefBefore(qps, burst, i);
    assert c.now == if i <= burst then 0.0 else Later(qps);
  }

  function DrainTrace(qps: nat, burst: nat): Trace
    requires qps > 0
  {
    var n := burst + 300 * qps + 1;
    Trace(seq(n + 1, i requires i >= 0 => DrainState(qps, burst, i)), DrainTwice(qps, burst, n), seq(n, _ => true))
  }

  lemma DrainIsRun(cfg: Config, qps: nat, burst: nat)
    requires ValidConfig(cfg) && cfg.qps == qps as real && cfg.burst == burst as real && 300 * qps < burst
    ensures IsRun(cfg, DrainTrace(qps, burst))
  {
    var t := DrainTrace(qps, burst);
    forall i: nat | i < |t.calls| ensures StepAt(cfg, t, i) {
      DrainStep(cfg, qps, burst, i);
      assert DrainTwice(qps, burst, i + 1)[i] == t.calls[i];
    }
  }

  lemma DrainCalls(qps: nat, burst: nat, n: nat)
    requires qps > 0 && n > 0
    ensures Monotone(DrainTwice(qps, burst, n)) && Clients(DrainTwice(qps, burst, n)) == {"client"}
  {
    var calls := DrainTwice(qps, burst, n);
    assert 0.5 / qps as real > 0.0;
    assert Later(qps) > 0.0;
    assert calls[0] in calls && calls[0].key == "client";
  }

  lemma PruningShows(cfg: Config, qps: nat, burst: nat)
    requires ValidConfig(cfg) && cfg.qps == qps as real && cfg.burst == burst as real && 300 * qps < burst
    ensures !NeverNoticed(cfg)
  {
    var t, last := DrainTrace(qps, burst), burst + 300 * qps;
    DrainIsRun(cfg, qps, burst);
    DrainCalls(qps, burst, last + 1);
    assert t.calls[..last] == DrainTwice(qps, burst, last);
    RefDrain(cfg, qps, burst, last);
    UseAtOnce(cfg, Bucket(RefLeft(qps, burst, last), Later(qps)));
    assert !RefAllows(cfg, RefRun(cfg, t.calls[..last]), t.calls[last]);
    assert !AgreesAt(cfg, t, last);
  }

  // ----- the limiter itself

  function SeenOf(m: Buckets, key: string): real { if key in m then m[key].seen else 0.0 }

  lemma BySeenIsWeakOrder(m: Buckets, keys: seq<string>)
    ensures StrictWeakOn((a: string, b: string) => SeenOf(m, a) < SeenOf(m, b), keys)
  {
  }

  ghost function FirstKeys(keys: seq<string>, n: nat): set<string>
    requires n <= |keys|
  {
    set k | k in keys[..n]
  }

  predicate NoneIdle(m: Buckets, now: real) {
    forall k | k in m :: now - m[k].seen <= 300.0
  }

  class RateLimiter {
    const cfg: Config
    var buckets: Buckets
    var nextPrune: Option<real>

    ghost predicate Valid()
      reads this
    {
      ValidConfig(cfg) && |buckets| <= cfg.maxBuckets
    }

    ghost function Abs(): State
      reads this
    {
      State(buckets, nextPrune)
    }

    constructor (qps: int, burst: int, maxBuckets: int)
      requires qps > 0 && burst > 0
      ensures Valid() && Abs() == FRESH
      ensures cfg == Config(qps as real, burst as real, if maxBuckets <= 0 then DEFAULT_MAX_BUCKETS else maxBuckets)
    {
      cfg := Config(qps as real, burst as real, if maxBuckets <= 0 then DEFAULT_MAX_BUCKETS else maxBuckets);
      buckets, nextPrune := map[], None;
    }

    /** Drops the least recently seen buckets other than `exempt` until the limit holds. */
    method TrimLocked(exempt: string)
      requires ValidConfig(cfg)
      modifies this`buckets
      ensures Trimmed(old(buckets), buckets, exempt, cfg.maxBuckets)
    {
      if |buckets| <= cfg.maxBuckets { return; }
      ghost var m := buckets;
      var keys: seq<string> := [];
      var rest := buckets.Keys;
      while rest != {}
        invariant rest <= m.Keys
        invariant NoDuplicates(keys)
        invariant forall k :: k in keys <==> k in m && k !in rest && k != exempt
      {
        var key :| key in rest;
        rest := rest - {key};
        if key != exempt { keys := keys + [key]; }
      }
      keys := SortBySeen(buckets, keys);
      DeleteFirst(keys, exempt);
    }

    static method SortBySeen(m: Buckets, keys: seq<string>) returns (sorted: seq<string>)
      requires NoDuplicates(keys)
      ensures NoDuplicates(sorted)
      ensures forall k :: k in sorted <==> k in keys
      ensures forall i, j | 0 <= i < j < |sorted| :: SeenOf(m, sorted[i]) <= SeenOf(m, sorted[j])
    {
      var less := (a: string, b: string) => SeenOf(m, a) < SeenOf(m, b);
      sorted := Sort(keys, less);
      BySeenIsWeakOrder(m, keys);
      SortSorts(keys, less);
      SameElements(sorted, keys);
      PermutationKeepsDistinct(keys, sorted);
    }

    /** Deletes keys in order until the limit holds. */
    method DeleteFirst(keys: seq<string>, exempt: string)
      requires ValidConfig(cfg) && |buckets| > cfg.maxBuckets
      requires NoDuplicates(keys)
      requires forall k :: k in keys <==> k in buckets && k != exempt
      requires forall i, j | 0 <= i < j < |keys| :: SeenOf(buckets, keys[i]) <= SeenOf(buckets, keys[j])
      modifies this`buckets
      ensures Trimmed(old(buckets), buckets, exempt, cfg.maxBuckets)
    {
      ghost var m := buckets;
      var i := 0;
      while i < |keys|
        invariant 0 <= i <= |keys|
        invariant buckets == m - FirstKeys(keys, i)
        invariant |buckets| >= cfg.maxBuckets
      {
        assert keys[i] in keys;
        if |buckets| <= cfg.maxBuckets { break; }
        DeleteNext(m, keys, i);
        buckets := buckets - {keys[i]};
        i := i + 1;
      }
      TrimOutcome(m, buckets, keys, i, exempt);
    }

    static lemma DeleteNext(m: Buckets, keys: seq<string>, i: nat)
      requires NoDuplicates(keys) && i < |keys| && keys[i] in m
      ensures
        var before, after := m - FirstKeys(keys, i), m - FirstKeys(keys, i + 1);
        after == before - {keys[i]} && |after| == |before| - 1
    {
      assert keys[..i + 1] == keys[..i] + [keys[i]];
      var before, after := m - FirstKeys(keys, i), m - FirstKeys(keys, i + 1);
      assert after == before - {keys[i]};
      assert before.Keys == after.Keys + {keys[i]};
    }

    /** Deleting a prefix of the keys sorted by last use drops only the least recently seen. */
    lemma TrimOutcome(m: Buckets, m': Buckets, keys: seq<string>, i: nat, exempt: string)
      requires i <= |keys| && m' == m - FirstKeys(keys, i)
      requires ValidConfig(cfg) && |m| > cfg.maxBuckets && |m'| >= cfg.maxBuckets
      requires i == |keys| || |m'| <= cfg.maxBuckets
      requires forall k :: k in keys <==> k in m && k != exempt
      requires forall i, j | 0 <= i < j < |keys| :: SeenOf(m, keys[i]) <= SeenOf(m, keys[j])
      ensures Trimmed(m, m', exempt, cfg.maxBuckets)
    {
      if i == |keys| {
        assert keys[..i] == keys;
        assert m'.Keys <= {exempt};
        SubsetSize(m'.Keys, {exempt});
        assert |m'| == |m'.Keys| <= 1;
      }
      forall gone, kept | gone in m && gone !in m' && kept in m' && kept != exempt
        ensures m[gone].seen <= m[kept].seen
      {
        var a :| 0 <= a < i && keys[a] == gone;
        assert kept in keys;
        var b :| 0 <= b < |keys| && keys[b] == kept;
        assert forall x | 0 <= x < i :: keys[x] in keys[..i];
        assert SeenOf(m, keys[a]) <= SeenOf(m, keys[b]);
      }
    }

    method PruneLocked(now: real)
      requires Valid()
      modifies this`buckets
      ensures Valid() && buckets == WithoutIdle(old(buckets), now)
    {
      var rest := buckets.Keys;
      while rest != {}
        invariant rest <= buckets.Keys <= old(buckets).Keys
        invariant forall k | k in buckets :: buckets[k] == old(buckets)[k] && (k in rest || !Idle(buckets[k], now))
        invariant forall k | k in old(buckets) && k !in buckets :: Idle(old(buckets)[k], now)
      {
        var key :| key in rest;
        rest := rest - {key};
        if now - buckets[key].seen > IDLE_LIMIT { buckets := buckets - {key}; }
      }
      assert buckets == WithoutIdle(old(buckets), now);
      SubsetSize(buckets.Keys, old(buckets).Keys);
      assert |buckets| == |buckets.Keys| && |old(buckets)| == |old(buckets).Keys|;
      TrimLocked("");
    }

    /** Whether the client at `ip` may perform one more operation at `now`. */
    method Allow(ip: Option<string>, now: real) returns (ok: bool)
      requires Valid()
      modifies this`buckets, this`nextPrune
      ensures Valid()
      ensures Next(cfg, old(Abs()), Abs(), Call(if ip.Some? then ip.value else "unknown", now), ok)
      ensures old(nextPrune).None? || now > old(nextPrune).value ==>
        nextPrune == Some(now + 60.0) && NoneIdle(buckets, now)
    {
      ghost var before, c := Abs(), Call(if ip.Some? then ip.value else "unknown", now);
      var key := if ip.Some? then ip.value else "unknown";
      if nextPrune.None? || now > nextPrune.value {
        PruneLocked(now);
        nextPrune := Some(now + PRUNE_INTERVAL);
      }
      ghost var m := buckets;
      Admit(key, now);
      ghost var grown := buckets;
      var bucket;
      bucket, ok := Charge(buckets[key], now);
      TrimThenUse(m, grown, key, grown[key], bucket);
      buckets := buckets[key := bucket];
      if PruneDue(before, now) { NoneIdleAfterPrune(before, Abs(), c, ok); }
    }

    /** Once a minute or so every bucket unused for five minutes is dropped. */
    lemma NoneIdleAfterPrune(s: State, s': State, c: Call, ok: bool)
      requires Next(cfg, s, s', c, ok) && PruneDue(s, c.now)
      ensures NoneIdle(s'.buckets, c.now)
    {
      StepBuckets(cfg, s, s', c, ok, c.key);
      forall k | k in s'.buckets ensures c.now - s'.buckets[k].seen <= 300.0 {
        if k != c.key { assert k in Pruned(s, c.now) && s'.buckets[k] == s.buckets[k]; }
      }
    }

    /** Makes sure the caller has a bucket. */
    method Admit(key: string, now: real)
      requires Valid()
      modifies this`buckets
      ensures Valid() && key in buckets && buckets[key] == BucketFor(cfg, old(buckets), key, now)
      ensures Trimmed(old(buckets)[key := buckets[key]], buckets, key, cfg.maxBuckets)
    {
      if key !in buckets {
        buckets := buckets[key := Bucket(cfg.burst, now)];
        TrimLocked(key);
      } else {
        assert buckets[key := buckets[key]] == buckets;
      }
    }

    method Charge(b: Bucket, now: real) returns (bucket: Bucket, ok: bool)
      ensures bucket == Used(cfg, b, now) && ok == Allows(cfg, b, now)
    {
      var elapsed := now - b.seen;
      bucket := b.(seen := now);
      bucket := bucket.(tokens := bucket.tokens + elapsed * cfg.qps);
      if bucket.tokens > cfg.burst { bucket := bucket.(tokens := cfg.burst); }
      ok := bucket.tokens >= 1.0;
      if ok { bucket := bucket.(tokens := bucket.tokens - 1.0); }
    }

    /** Trimming spares the caller, so its bucket may be charged before or after. */
    lemma TrimThenUse(m: Buckets, grown: Buckets, key: string, b: Bucket, used: Bucket)
      requires Trimmed(m[key := b], grown, key, cfg.maxBuckets)
      ensures Trimmed(m[key := used], grown[key := used], key, cfg.maxBuckets)
      ensures |grown[key := used]| == |grown|
    {
      assert m[key := b].Keys == m[key := used].Keys;
      assert |m[key := b]| == |m[key := used]|;
      assert key in grown;
      assert grown[key := used].Keys == grown.Keys;
      if |m[key := used]| <= cfg.maxBuckets { assert grown[key := used] == m[key := used]; }
    }
  }
}

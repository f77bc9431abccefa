/**
 * The whole path of a query (internal/dns/pipeline.go): the limiter, the policy engine, the cache
 * and the upstream pool behind one request. Each of them may be absent.
 */
module Gateway {
  import opened Options
  import opened DnsMessages
  import Lru = LruSpec
  import opened RateLimits
  import opened DomainNames
  import Policy = PolicyEngine
  import Up = UpstreamPool
  import Q = QueryPipeline

  /** The engine's verdict on a name for a client of this group. */
  ghost function Verdict(engine: Policy.Engine?, group: string, qname: string, now: int): Policy.Decision
    reads engine
  {
    if engine == null then Policy.Allowed else Policy.DecideFor(engine.lib, engine.view, group, qname, now)
  }

  /** Takes a snapshot and evaluates it. */
  method Judge(engine: Policy.Engine?, group: string, qname: string, now: int) returns (blocked: bool)
    requires engine != null ==> engine.Valid()
    ensures blocked <==> Verdict(engine, group, qname, now).Blocked?
    ensures engine != null ==>
      Policy.DecidesFor(engine.lib, engine.view, group, qname, now, Verdict(engine, group, qname, now))
  {
    if engine == null { return false; }
    Policy.DecideForDecides(engine.lib, engine.view, group, qname, now);
    var p, foot, v := Policy.TakeSnapshot(engine, group);
    var d := Policy.Evaluate(engine.lib, p, qname, now, foot, v);
    return d.Blocked?;
  }

  /** What the pool returned, if it was asked at all. */
  ghost predicate Answers(forwarded: Option<Up.Forwarded>, before: Up.History, after: Up.History, turns: nat -> Up.Turn,
                          cancelled: nat -> bool) {
    match forwarded
    case None => after == before
    case Some(r) =>
      var ids := Up.Ids(Up.Run(before), true);
      && Up.FirstSuccess(r, before, ids, Up.MAX_RETRIES, turns, cancelled)
      && after == Up.HistoryAfter(before, Up.Rounds(ids, Up.MAX_RETRIES + 1), turns, |r.attempts|)
  }

  /** What the pool answered is the reply, and a server failure if it gave no answer. */
  ghost predicate Relays(reply: Q.Response, msg: Msg, forwarded: Option<Up.Forwarded>) {
    forwarded.Some? ==>
      match forwarded.value.answer
      case Some(_) => reply == Q.Response(forwarded.value.answer, Q.FromUpstream(forwarded.value.source))
      case None => reply.source == Q.Synthetic && Q.Declines(reply, msg, RCODE_SERVER_FAILURE)
  }

  /** A reply after the policy: from the cache, from the pool, or a server failure when no pool was asked. */
  ghost predicate Answered(reply: Q.Response, msg: Msg, forwarded: Option<Up.Forwarded>) {
    && Relays(reply, msg, forwarded)
    && (forwarded.None? ==>
          reply.source == Q.FromCache
            || (reply.source == Q.Synthetic && Q.Declines(reply, msg, RCODE_SERVER_FAILURE)))
  }

  /** The query gets past validation and special names. */
  predicate Reaches(env: Q.Env, msg: Msg) {
    && msg.opcode == OPCODE_QUERY && msg.question != [] && msg.question[0].qclass == CLASS_INET
    && env.special(msg, env.canonical(msg.question[0].name), msg.question[0].qtype).None?
  }

  /** The part of the heap a pipeline may change. */
  ghost function Own(pipe: Q.Pipeline): set<object>
    reads pipe, pipe.cache, pipe.cache.lru
  {
    {pipe, pipe.cache, pipe.cache.lru} + set e | e in pipe.cache.lru.nodes
  }

  /** Forwards a query that missed the cache, and answers it. */
  method ForwardMiss(pipe: Q.Pipeline, pool: Up.Pool?, ghost i: nat, msg: Msg, key: Lru.Key, x: Q.Inputs,
                     turns: nat -> Up.Turn, cancelled: nat -> bool)
    returns (reply: Q.Response, x': Q.Inputs, ghost forwarded: Option<Up.Forwarded>)
    requires pipe.Valid() && i < |pipe.system.requests| && pipe.system.requests[i] == Q.Forwarding(msg, key)
    requires pool != null ==> pool.Valid() && Own(pipe) !! {pool} + pool.repr
    modifies Own(pipe), if pool == null then {} else {pool} + pool.repr
    ensures pipe.Valid() && (pool != null ==> pool.Valid())
    ensures pipe.system == Q.Concluded(old(pipe.system), i, x'.answer, x'.upstream, x'.packs, x'.answeredAt)
    ensures pipe.system.requests[i].Replied? && pipe.system.requests[i].response == reply
    ensures pool == null ==> forwarded.None? && x'.answer.None?
    ensures pool != null ==> forwarded.Some? && Answers(forwarded, old(pool.history), pool.history, turns, cancelled)
                             && x'.answer == forwarded.value.answer && x'.upstream == forwarded.value.source
    ensures Answered(reply, msg, forwarded)
  {
    x', forwarded := x.(answer := None, upstream := ""), None;
    if pool != null {
      var r := pool.Forward(Some(msg), turns, cancelled);
      x', forwarded := x.(answer := r.answer, upstream := r.source), Some(r);
    }
    reply := pipe.Conclude(i, msg, key, x');
  }

  /** What is known of the client and the clock during one request. */
  datatype Circumstances = Circumstances(ip: Option<string>, arrivedAt: real, tcp: bool, group: string, judgedAt: int,
                                         unpacks: bool, lookedUpAt: int, packs: bool, answeredAt: int)

  function InputsOf(c: Circumstances, allowed: bool, blocked: bool): Q.Inputs {
    Q.Inputs(allowed, c.tcp, blocked, c.unpacks, c.lookedUpAt, None, "", c.packs, c.answeredAt)
  }

  /** The name a query that gets to the policy asks for. */
  function Asked(env: Q.Env, msg: Msg): string {
    if msg.question == [] then "" else env.canonical(msg.question[0].name)
  }

  ghost predicate Ready(pipe: Q.Pipeline, engine: Policy.Engine?, pool: Up.Pool?)
    reads pipe, pipe.cache, pipe.cache.lru, pipe.cache.lru.nodes
    reads engine, if engine == null then {} else engine.foot
    reads pool, if pool == null then {} else pool.repr
  {
    && pipe.Valid()
    && (engine != null ==> engine.Valid() && Own(pipe) !! engine.foot)
    && (pool != null ==> pool.Valid() && Own(pipe) !! {pool} + pool.repr)
  }

  /** The cache, then the upstreams. */
  method Resolve(pipe: Q.Pipeline, pool: Up.Pool?, env: Q.Env, ghost i: nat, msg: Msg, key: Lru.Key, c: Circumstances,
                 turns: nat -> Up.Turn, cancelled: nat -> bool, ghost start: Q.State, ghost before: Q.Trace)
    returns (reply: Q.Response, ghost trace: Q.Trace, ghost forwarded: Option<Up.Forwarded>)
    requires pipe.Valid() && i < |pipe.system.requests| && pipe.system.requests[i] == Q.LookingUp(msg, key)
    requires pool != null ==> pool.Valid() && Own(pipe) !! {pool} + pool.repr
    requires Q.CanRun(env, start, before) && pipe.system == Q.Run(env, start, before)
    modifies Own(pipe), if pool == null then {} else {pool} + pool.repr
    ensures pipe.Valid() && Q.CanRun(env, start, trace) && pipe.system == Q.Run(env, start, trace)
    ensures |pipe.system.requests| == |old(pipe.system).requests|
    ensures pipe.system.requests[i].Replied? && pipe.system.requests[i].response == reply
    ensures !pipe.system.requests[i].origin.BlockedByPolicy?
    ensures Answered(reply, msg, forwarded) && Q.Ends(Some(msg), c.lookedUpAt, reply, pipe.system.requests[i])
    ensures pool == null ==> forwarded.None?
    ensures pool != null ==> pool.Valid() && Answers(forwarded, old(pool.history), pool.history, turns, cancelled)
  {
    var x := InputsOf(c, true, false);
    var hit;
    hit, trace := pipe.Lookups(env, i, msg, key, x, start, before);
    forwarded := None;
    if hit.Some? { return hit.value, trace, None; }
    var x';
    reply, x', forwarded := ForwardMiss(pipe, pool, i, msg, key, x, turns, cancelled);
    Q.OneMore(env, start, trace, Q.Answered(i, x'.answer, x'.upstream, x'.packs, x'.answeredAt));
    trace := Q.Then(trace, Q.Answered(i, x'.answer, x'.upstream, x'.packs, x'.answeredAt));
  }

  /**
   * The policy's verdict is heeded: a query that gets to it and is blocked is answered with the block page,
   * and neither the cache nor the upstreams are touched; no other query is blocked.
   */
  ghost predicate Heeded(env: Q.Env, msg: Msg, verdict: Policy.Decision, p: Q.Phase, before: Lru.State,
                         after: Lru.State, forwarded: Option<Up.Forwarded>) {
    && p.Replied? && (p.origin.BlockedByPolicy? <==> Reaches(env, msg) && verdict.Blocked?)
    && (Reaches(env, msg) && verdict.Blocked? ==>
          && msg.question != [] && p.response == Q.Response(Some(env.block(msg, msg.question[0].qtype)), Q.Synthetic)
          && after == before && forwarded.None?)
  }

  /** Only a query that gets past validation and special names is judged. */
  method JudgeReached(engine: Policy.Engine?, env: Q.Env, msg: Msg, c: Circumstances) returns (blocked: bool)
    requires engine != null ==> engine.Valid()
    ensures blocked <==> Reaches(env, msg) && Verdict(engine, c.group, Asked(env, msg), c.judgedAt).Blocked?
  {
    blocked := false;
    if Reaches(env, msg) { blocked := Judge(engine, c.group, Asked(env, msg), c.judgedAt); }
  }

  /** From the policy on. */
  method Screened(pipe: Q.Pipeline, engine: Policy.Engine?, pool: Up.Pool?, env: Q.Env, ghost i: nat, msg: Msg,
                  c: Circumstances, turns: nat -> Up.Turn, cancelled: nat -> bool,
                  ghost start: Q.State, ghost before: Q.Trace)
    returns (reply: Q.Response, ghost trace: Q.Trace, ghost forwarded: Option<Up.Forwarded>)
    requires Ready(pipe, engine, pool) && i < |pipe.system.requests| && pipe.system.requests[i] == Q.Admitted(msg)
    requires Q.CanRun(env, start, before) && pipe.system == Q.Run(env, start, before)
    modifies Own(pipe), if pool == null then {} else {pool} + pool.repr
    ensures pipe.Valid() && Q.CanRun(env, start, trace) && pipe.system == Q.Run(env, start, trace)
    ensures |pipe.system.requests| == |old(pipe.system).requests|
    ensures pipe.system.requests[i].Replied? && pipe.system.requests[i].response == reply
    ensures pool == null ==> forwarded.None?
    ensures pool != null ==> pool.Valid() && Answers(forwarded, old(pool.history), pool.history, turns, cancelled)
    ensures Heeded(env, msg, old(Verdict(engine, c.group, Asked(env, msg), c.judgedAt)),
                   pipe.system.requests[i], old(pipe.system.cache), pipe.system.cache, forwarded)
    ensures Q.Ends(Some(msg), c.lookedUpAt, reply, pipe.system.requests[i])
    ensures Tells(env, msg, old(Verdict(engine, c.group, Asked(env, msg), c.judgedAt)), reply, forwarded)
  {
    var blocked := JudgeReached(engine, env, msg, c);
    forwarded := None;
    var screened, key;
    screened, key, trace := ScreenOne(pipe, pool, env, i, msg, blocked, start, before);
    if screened.Some? { return screened.value, trace, None; }
    reply, trace, forwarded := Resolve(pipe, pool, env, i, msg, key, c, turns, cancelled, start, trace);
  }

  /** What a query that was let through is told: by validation, special names and policy, or else an answer. */
  ghost predicate Tells(env: Q.Env, msg: Msg, verdict: Policy.Decision, reply: Q.Response,
                        forwarded: Option<Up.Forwarded>) {
    if Q.Screens(env, msg, verdict.Blocked?, None) then Answered(reply, msg, forwarded)
    else Q.Screens(env, msg, verdict.Blocked?, Some(reply)) && forwarded.None?
  }

  method ScreenOne(pipe: Q.Pipeline, pool: Up.Pool?, env: Q.Env, ghost i: nat, msg: Msg, blocked: bool,
                   ghost start: Q.State, ghost before: Q.Trace)
    returns (screened: Option<Q.Response>, key: Lru.Key, ghost trace: Q.Trace)
    requires pipe.Valid() && i < |pipe.system.requests| && pipe.system.requests[i] == Q.Admitted(msg)
    requires pool != null ==> pool.Valid() && Own(pipe) !! {pool} + pool.repr
    requires Q.CanRun(env, start, before) && pipe.system == Q.Run(env, start, before)
    modifies pipe
    ensures pipe.Valid() && (pool != null ==> pool.Valid() && Own(pipe) !! {pool} + pool.repr)
    ensures Q.CanRun(env, start, trace) && pipe.system == Q.Run(env, start, trace)
    ensures |pipe.system.requests| == |old(pipe.system).requests| && pipe.system.cache == old(pipe.system.cache)
    ensures screened.None? ==> pipe.system.requests[i] == Q.LookingUp(msg, key) && !(Reaches(env, msg) && blocked)
    ensures Q.Screens(env, msg, Reaches(env, msg) && blocked, screened)
    ensures screened.Some? ==> screened.value.source != Q.FromCache
    ensures screened.Some? ==>
      && pipe.system.requests[i].Replied? && pipe.system.requests[i].response == screened.value
      && Heeded(env, msg, if blocked then Policy.Blocked("", "") else Policy.Allowed,
                pipe.system.requests[i], pipe.system.cache, pipe.system.cache, None)
  {
    screened, key := pipe.Screen(env, i, msg, blocked);
    Q.OneMore(env, start, before, Q.Decide(i, blocked));
    trace := Q.Then(before, Q.Decide(i, blocked));
  }

  /** The limiter, which nothing else depends on; without one everything is let through. */
  method LimitFirst(pipe: Q.Pipeline, limiter: RateLimiter?, engine: Policy.Engine?, pool: Up.Pool?, msg: Option<Msg>,
                    c: Circumstances)
    returns (allowed: bool)
    requires Ready(pipe, engine, pool) && Unlimited(limiter, engine, pool)
    modifies limiter
    ensures Ready(pipe, engine, pool)
    ensures msg.Some? && limiter != null ==>
      Next(limiter.cfg, old(limiter.Abs()), limiter.Abs(),
        Call(if c.ip.Some? then c.ip.value else "unknown", c.arrivedAt), allowed)
  {
    allowed := true;
    if msg.Some? && limiter != null { allowed := limiter.Allow(c.ip, c.arrivedAt); }
  }

  /** The limiter is no part of the engine or the pool. */
  ghost predicate Unlimited(limiter: RateLimiter?, engine: Policy.Engine?, pool: Up.Pool?)
    reads limiter, engine, pool
  {
    limiter != null ==>
      && limiter.Valid() && (engine != null ==> limiter !in engine.foot) && (pool != null ==> limiter !in pool.repr)
  }

  /** The query counter. */
  method Enter(pipe: Q.Pipeline, engine: Policy.Engine?, pool: Up.Pool?, env: Q.Env, msg: Option<Msg>, c: Circumstances,
               allowed: bool)
    returns (early: Option<Q.Response>, ghost trace: Q.Trace)
    requires Ready(pipe, engine, pool)
    modifies pipe
    ensures Ready(pipe, engine, pool)
    ensures Q.CanRun(env, old(pipe.system), trace) && pipe.system == Q.Run(env, old(pipe.system), trace)
    ensures |pipe.system.requests| == |old(pipe.system).requests| + 1 && pipe.system.cache == old(pipe.system.cache)
    ensures var p := pipe.system.requests[|old(pipe.system).requests|];
      && (early.Some? <==> !(msg.Some? && allowed))
      && (if early.Some? then p.Replied? && p.response == early.value else p == Q.Admitted(msg.value))
    ensures Q.Admits(msg, allowed, c.tcp, early)
  {
    ghost var start := pipe.system;
    early := pipe.Admit(msg, InputsOf(c, allowed, false));
    Q.OneMore(env, start, Q.Begin, Q.Arrive(msg, allowed, c.tcp));
    trace := Q.Then(Q.Begin, Q.Arrive(msg, allowed, c.tcp));
  }

  function AskedBy(env: Q.Env, msg: Option<Msg>): string {
    if msg.Some? then Asked(env, msg.value) else ""
  }

  /**
   * One request more, and it is answered. If it was let through,
     the verdict is heeded and the query told what it should
   * be; otherwise neither the cache nor the upstreams are touched.
   */
  ghost predicate Served(env: Q.Env, msg: Option<Msg>, allowed: bool, tcp: bool, at: int, verdict: Policy.Decision,
                         before: Q.State, after: Q.State, reply: Q.Response, forwarded: Option<Up.Forwarded>) {
    var n := |before.requests|;
    && |after.requests| == n + 1 && after.requests[n].Replied? && after.requests[n].response == reply
    && (if msg.Some? && allowed then
          && Heeded(env, msg.value, verdict, after.requests[n], before.cache, after.cache, forwarded)
          && Tells(env, msg.value, verdict, reply, forwarded)
        else after.cache == before.cache && forwarded.None?)
    && (!(msg.Some? && allowed) ==> Q.Admits(msg, allowed, tcp, Some(reply)))
    && Q.Ends(msg, at, reply, after.requests[n])
  }

  /** A reply from the cache is an upstream's answer to the same question. */
  ghost predicate Truthful(env: Q.Env, msg: Option<Msg>, at: int, before: Q.State, after: Q.State, reply: Q.Response) {
    Q.Sound(env, before) ==> Q.Sound(env, after) && Q.Cached(env, msg, at, reply, after)
  }

  lemma ServedTruthfully(env: Q.Env, msg: Option<Msg>, at: int, before: Q.State, trace: Q.Trace, n: nat,
                         reply: Q.Response)
    requires Q.CanRun(env, before, trace) && n < |Q.Run(env, before, trace).requests|
    requires Q.Ends(msg, at, reply, Q.Run(env, before, trace).requests[n])
    ensures Truthful(env, msg, at, before, Q.Run(env, before, trace), reply)
  {
    if Q.Sound(env, before) { Q.CachedReply(env, before, trace, n, msg, at, reply); }
  }

  /** Everything behind the limiter. */
  method ServeLimited(pipe: Q.Pipeline, engine: Policy.Engine?, pool: Up.Pool?, env: Q.Env, msg: Option<Msg>,
                      c: Circumstances, allowed: bool, turns: nat -> Up.Turn, cancelled: nat -> bool)
    returns (reply: Q.Response, ghost trace: Q.Trace, ghost forwarded: Option<Up.Forwarded>)
    requires Ready(pipe, engine, pool)
    modifies Own(pipe), if pool == null then {} else {pool} + pool.repr
    ensures pipe.Valid() && Q.CanRun(env, old(pipe.system), trace) && pipe.system == Q.Run(env, old(pipe.system), trace)
    ensures pool != null ==> pool.Valid() && Answers(forwarded, old(pool.history), pool.history, turns, cancelled)
    ensures Served(env, msg, allowed, c.tcp, c.lookedUpAt, old(Verdict(engine, c.group, AskedBy(env, msg), c.judgedAt)),
                   old(pipe.system), pipe.system, reply, forwarded)
  {
    ghost var start, n := pipe.system, |pipe.system.requests|;
    forwarded := None;
    var early;
    early, trace := Enter(pipe, engine, pool, env, msg, c, allowed);
    if early.Some? { return early.value, trace, None; }
    reply, trace, forwarded := Screened(pipe, engine, pool, env, n, msg.value, c, turns, cancelled, start, trace);
  }

  /**
   * One request through the whole gateway. The steps are a run of the pipeline's system; the limiter takes
   * one step of its own; and a query that the engine's lists block at that moment is answered with the block
   * page, without touching the cache or the upstreams, while no other query is. Where the pool was asked, its answer
   * is the reply.
   */
  method Serve(pipe: Q.Pipeline, limiter: RateLimiter?, engine: Policy.Engine?, pool: Up.Pool?, env: Q.Env,
               msg: Option<Msg>, c: Circumstances, turns: nat -> Up.Turn, cancelled: nat -> bool)
    returns (reply: Q.Response, allowed: bool, ghost trace: Q.Trace, ghost forwarded: Option<Up.Forwarded>)
    requires Ready(pipe, engine, pool) && Unlimited(limiter, engine, pool)
    modifies limiter, Own(pipe), if pool == null then {} else {pool} + pool.repr
    ensures pipe.Valid() && Q.CanRun(env, old(pipe.system), trace) && pipe.system == Q.Run(env, old(pipe.system), trace)
    ensures msg.Some? && limiter != null ==>
      Next(limiter.cfg, old(limiter.Abs()), limiter.Abs(),
        Call(if c.ip.Some? then c.ip.value else "unknown", c.arrivedAt), allowed)
    ensures pool != null ==> pool.Valid() && Answers(forwarded, old(pool.history), pool.history, turns, cancelled)
    ensures Served(env, msg, allowed, c.tcp, c.lookedUpAt, old(Verdict(engine, c.group, AskedBy(env, msg), c.judgedAt)),
                   old(pipe.system), pipe.system, reply, forwarded)
    ensures Truthful(env, msg, c.lookedUpAt, old(pipe.system), pipe.system, reply)
  {
    ghost var before := pipe.system;
    allowed := LimitFirst(pipe, limiter, engine, pool, msg, c);
    reply, trace, forwarded := ServeLimited(pipe, engine, pool, env, msg, c, allowed, turns, cancelled);
    ServedTruthfully(env, msg, c.lookedUpAt, before, trace, |before.requests|, reply);
  }
}

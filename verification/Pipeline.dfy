/**
 * The query pipeline (internal/dns/pipeline.go): any number of requests in flight,
 * each taking its steps in order, interleaved with each other and with cache
 * maintenance. The limiter's and the policy's decisions, the upstream's answer,
 * clock readings and whether wire data packs or unpacks are inputs of the steps.
 */
module QueryPipeline {
  import opened Options
  import opened DnsMessages
  import Lru = LruSpec
  import DnsCache

  datatype Source = Synthetic | RateLimit | Local | FromCache | FromUpstream(id: string)

  datatype Response = Response(msg: Option<Msg>, source: Source)

  /** Names and the answers the gateway makes up itself. */
  datatype Env = Env(canonical: string -> string, special: (Msg, string, nat) -> Option<Msg>, block: (Msg, nat) -> Msg)

  function SynthRCode(req: Option<Msg>, rcode: nat): Msg {
    match req
    case Some(m) => Msg(m.id, m.opcode, rcode, if m.question == [] then [] else [m.question[0]], [], [], [])
    case None => Msg(0, OPCODE_QUERY, rcode, [], [], [], [])
  }

  /** Where validation, special names and the policy lead a query. */
  datatype Outcome = Early(reply: Msg) | LocalAnswer(reply: Msg) | Block(reply: Msg) | Proceed(key: Lru.Key)

  function Decision(env: Env, msg: Msg, blocked: bool): Outcome {
    if msg.opcode != OPCODE_QUERY then Early(SynthRCode(Some(msg), RCODE_NOT_IMPLEMENTED))
    else if msg.question == [] then Early(SynthRCode(Some(msg), RCODE_FORMAT_ERROR))
    else
      var q := msg.question[0];
      if q.qclass != CLASS_INET then Early(SynthRCode(Some(msg), RCODE_REFUSED))
      else
        var qname := env.canonical(q.name);
        match env.special(msg, qname, q.qtype)
        case Some(reply) => LocalAnswer(reply)
        case None => if blocked then Block(env.block(msg, q.qtype)) else Proceed(Lru.Key(qname, q.qtype, q.qclass))
  }

  /** How a reply came about. */
  datatype Origin = Plain | BlockedByPolicy | CacheHit(msg: Msg, key: Lru.Key, at: int)

  datatype Phase =
    | Admitted(msg: Msg)                                              // counted, nothing decided
    | LookingUp(msg: Msg, key: Lru.Key)                               // past the policy
    | Found(msg: Msg, key: Lru.Key, reply: Msg, at: int)              // a hit, not counted yet
    | Missed(msg: Msg, key: Lru.Key)                                  // a miss, not counted yet
    | Forwarding(msg: Msg, key: Lru.Key)
    | Replied(response: Response, origin: Origin)

  datatype Counters = Counters(queryTotal: nat, cacheHit: nat, cacheMiss: nat, blockedTotal: nat, rateLimitedTotal: nat)

  /** A response that an upstream returned, the message it answers, when it was put, and the cache's limits then. */
  datatype Answer = Answer(asked: Msg, key: Lru.Key, msg: Msg, at: int, limits: Lru.Limits)

  datatype State = State(cache: Lru.State, counters: Counters, empty: nat, early: nat, local: nat,
                         requests: seq<Phase>, answers: seq<Answer>)

  datatype Event =
    | Arrive(msg: Option<Msg>, allowed: bool, tcp: bool)
    | Decide(i: nat, blocked: bool)
    | Lookup(i: nat, unpacks: bool, at: int)
    | CountHit(i: nat)
    | CountMiss(i: nat)
    | Answered(i: nat, answer: Option<Msg>, upstream: string, packs: bool, at: int)
    | FlushCache
    | ReconfigureCache(opts: Lru.Limits)

  predicate Enabled(s: State, e: Event) {
    match e
    case Decide(i, _) => i < |s.requests| && s.requests[i].Admitted?
    case Lookup(i, _, _) => i < |s.requests| && s.requests[i].LookingUp?
    case CountHit(i) => i < |s.requests| && s.requests[i].Found?
    case CountMiss(i) => i < |s.requests| && s.requests[i].Missed?
    case Answered(i, _, _, _, _) => i < |s.requests| && s.requests[i].Forwarding?
    case _ => true
  }

  function Arrived(s: State, msg: Option<Msg>, allowed: bool, tcp: bool): State {
    match msg
    case None =>
      s.(requests := s.requests + [Replied(Response(Some(SynthRCode(None, RCODE_SERVER_FAILURE)), Synthetic), Plain)],
        empty := s.empty + 1)
    case Some(m) =>
      if allowed then
        s.(requests := s.requests + [Admitted(m)], counters := s.counters.(queryTotal := s.counters.queryTotal + 1))
      else
        var refusal := if tcp then Some(SynthRCode(msg, RCODE_REFUSED)) else None;
        s.(requests := s.requests + [Replied(Response(refusal, RateLimit), Plain)],
           counters := s.counters.(rateLimitedTotal := s.counters.rateLimitedTotal + 1))
  }

  function Put(s: State, key: Lru.Key, msg: Msg, packs: bool, at: int): Lru.State {
    Lru.Step(s.cache, Lru.PutEvent(key, msg, packs, at))
  }

  function Decided(env: Env, s: State, i: nat, blocked: bool): State
    requires i < |s.requests| && s.requests[i].Admitted?
  {
    var msg := s.requests[i].msg;
    match Decision(env, msg, blocked)
    case Early(reply) => Reply(s.(early := s.early + 1), i, Response(Some(reply), Synthetic), Plain)
    case LocalAnswer(reply) => Reply(s.(local := s.local + 1), i, Response(Some(reply), Local), Plain)
    case Block(reply) =>
      Reply(s.(counters := s.counters.(blockedTotal := s.counters.blockedTotal + 1)), i,
        Response(Some(reply), Synthetic), BlockedByPolicy)
    case Proceed(key) => s.(requests := s.requests[i := LookingUp(msg, key)])
  }

  function LookedUp(s: State, i: nat, unpacks: bool, at: int): State
    requires i < |s.requests| && s.requests[i].LookingUp?
  {
    var msg, key := s.requests[i].msg, s.requests[i].key;
    var req := Some(Lru.Rewrite(msg.id, msg.question));
    var phase := match Lru.Reply(s.cache, key, req, unpacks, at)
                 case Some(reply) => Found(msg, key, reply, at)
                 case None => Missed(msg, key);
    s.(cache := Lru.Step(s.cache, Lru.GetEvent(key, req, unpacks, at)), requests := s.requests[i := phase])
  }

  function HitCounted(s: State, i: nat): State
    requires i < |s.requests| && s.requests[i].Found?
  {
    var p := s.requests[i];
    Reply(s.(counters := s.counters.(cacheHit := s.counters.cacheHit + 1)), i,
          Response(Some(p.reply), FromCache), CacheHit(p.msg, p.key, p.at))
  }

  function MissCounted(s: State, i: nat): State
    requires i < |s.requests| && s.requests[i].Missed?
  {
    s.(counters := s.counters.(cacheMiss := s.counters.cacheMiss + 1),
       requests := s.requests[i := Forwarding(s.requests[i].msg, s.requests[i].key)])
  }

  function Concluded(s: State, i: nat, answer: Option<Msg>, upstream: string, packs: bool, at: int): State
    requires i < |s.requests| && s.requests[i].Forwarding?
  {
    var msg, key := s.requests[i].msg, s.requests[i].key;
    match answer
    case Some(resp) =>
      Reply(s.(cache := Put(s, key, resp, packs, at),
        answers := s.answers + [Answer(msg, key, resp, at, s.cache.limits)]),
            i, Response(Some(resp), FromUpstream(upstream)), Plain)
    case None =>
      var failure := SynthRCode(Some(msg), RCODE_SERVER_FAILURE);
      Reply(s.(cache := Put(s, key, failure, packs, at)), i, Response(Some(failure), Synthetic), Plain)
  }

  function Apply(env: Env, s: State, e: Event): State
    requires Enabled(s, e)
  {
    match e
    case Arrive(msg, allowed, tcp) => Arrived(s, msg, allowed, tcp)
    case Decide(i, blocked) => Decided(env, s, i, blocked)
    case Lookup(i, unpacks, at) => LookedUp(s, i, unpacks, at)
    case CountHit(i) => HitCounted(s, i)
    case CountMiss(i) => MissCounted(s, i)
    case Answered(i, answer, upstream, packs, at) => Concluded(s, i, answer, upstream, packs, at)
    case FlushCache => s.(cache := Lru.Step(s.cache, Lru.FlushEvent))
    case ReconfigureCache(opts) => s.(cache := Lru.Step(s.cache, Lru.ReconfigureEvent(opts)))
  }

  function Reply(s: State, i: nat, response: Response, origin: Origin): State
    requires i < |s.requests|
  {
    s.(requests := s.requests[i := Replied(response, origin)])
  }

  datatype Trace = Begin | Then(before: Trace, event: Event)

  predicate CanRun(env: Env, s: State, trace: Trace)
    decreases trace, 0
  {
    trace.Then? ==> CanRun(env, s, trace.before) && Enabled(Run(env, s, trace.before), trace.event)
  }

  function Run(env: Env, s: State, trace: Trace): State
    requires CanRun(env, s, trace)
    decreases trace, 1
  {
    match trace
    case Begin => s
    case Then(before, e) => Apply(env, Run(env, s, before), e)
  }

  lemma OneMore(env: Env, s: State, before: Trace, e: Event)
    requires CanRun(env, s, before) && Enabled(Run(env, s, before), e)
    ensures CanRun(env, s, Then(before, e)) && Run(env, s, Then(before, e)) == Apply(env, Run(env, s, before), e)
  {
  }

  function Start(opts: Lru.Limits): State {
    State(Lru.Fresh(opts), Counters(0, 0, 0, 0, 0), 0, 0, 0, [], [])
  }

  // ----- counters

  predicate Pending(p: Phase) {
    p.Admitted? || p.LookingUp? || p.Found? || p.Missed?
  }

  /** Requests that were counted as queries and not yet as anything else. */
  function InFlight(requests: seq<Phase>): nat {
    if requests == [] then 0 else InFlight(requests[1..]) + if Pending(requests[0]) then 1 else 0
  }

  lemma {:induction false} InFlightUpdate(requests: seq<Phase>, i: nat, p: Phase)
    requires i < |requests|
    ensures InFlight(requests[i := p]) + (if Pending(requests[i]) then 1 else 0)
         == InFlight(requests) + if Pending(p) then 1 else 0
  {
    if i == 0 {
      assert requests[i := p][1..] == requests[1..];
    } else {
      InFlightUpdate(requests[1..], i - 1, p);
      assert requests[i := p][1..] == requests[1..][i - 1 := p];
    }
  }

  lemma {:induction false} InFlightAppend(requests: seq<Phase>, p: Phase)
    ensures InFlight(requests + [p]) == InFlight(requests) + if Pending(p) then 1 else 0
  {
    if requests != [] {
      InFlightAppend(requests[1..], p);
      assert (requests + [p])[1..] == requests[1..] + [p];
    }
  }

  /** Every arrival was empty, rate-limited or a query, and every query is of one kind or still in flight. */
  predicate Balanced(s: State) {
    && |s.requests| == s.empty + s.counters.rateLimitedTotal + s.counters.queryTotal
    && s.counters.queryTotal
         == s.early + s.local + s.counters.blockedTotal + s.counters.cacheHit + s.counters.cacheMiss
          + InFlight(s.requests)
  }

  lemma DecideKeepsBalance(env: Env, s: State, i: nat, blocked: bool)
    requires Balanced(s) && i < |s.requests| && s.requests[i].Admitted?
    ensures Balanced(Decided(env, s, i, blocked))
  {
    InFlightUpdate(s.requests, i, Decided(env, s, i, blocked).requests[i]);
  }

  lemma StepKeepsBalance(env: Env, s: State, e: Event)
    requires Balanced(s) && Enabled(s, e)
    ensures Balanced(Apply(env, s, e))
  {
    var t := Apply(env, s, e);
    match e
    case Arrive(_, _, _) => InFlightAppend(s.requests, t.requests[|s.requests|]);
    case Decide(i, blocked) => DecideKeepsBalance(env, s, i, blocked);
    case Lookup(i, _, _) => InFlightUpdate(s.requests, i, t.requests[i]);
    case CountHit(i) => InFlightUpdate(s.requests, i, t.requests[i]);
    case CountMiss(i) => InFlightUpdate(s.requests, i, t.requests[i]);
    case Answered(i, _, _, _, _) => InFlightUpdate(s.requests, i, t.requests[i]);
    case _ =>
  }

  /**
   * In every interleaving, the queries counted are the early rejections, local answers, blocked queries,
   * hits and misses, plus those still in flight; a rate-limited request is none of them.
   */
  lemma {:induction false} QueriesAddUp(env: Env, s: State, trace: Trace)
    requires Balanced(s) && CanRun(env, s, trace)
    ensures Balanced(Run(env, s, trace))
  {
    if trace.Then? {
      QueriesAddUp(env, s, trace.before);
      StepKeepsBalance(env, Run(env, s, trace.before), trace.event);
    }
  }

  // ----- cache keys

  /** The key names the first question of the message, in canonical form, with its type and its class. */
  predicate AsksFor(env: Env, msg: Msg, key: Lru.Key) {
    && msg.question != [] && key.qname == env.canonical(msg.question[0].name)
    && key.qtype == msg.question[0].qtype && key.qclass == msg.question[0].qclass
  }

  /** Both messages ask for the same name, up to canonical form, and for the same type and class. */
  predicate SameQuestion(env: Env, a: Msg, b: Msg) {
    && a.question != [] && b.question != []
    && env.canonical(a.question[0].name) == env.canonical(b.question[0].name)
    && a.question[0].qtype == b.question[0].qtype && a.question[0].qclass == b.question[0].qclass
  }

  /** Wherever a request has a key, it is that of its message. */
  predicate PhaseKeyed(env: Env, p: Phase) {
    match p
    case LookingUp(msg, key) => AsksFor(env, msg, key)
    case Found(msg, key, _, _) => AsksFor(env, msg, key)
    case Missed(msg, key) => AsksFor(env, msg, key)
    case Forwarding(msg, key) => AsksFor(env, msg, key)
    case Replied(_, origin) => origin.CacheHit? ==> AsksFor(env, origin.msg, origin.key)
    case Admitted(_) => true
  }

  ghost predicate Keyed(env: Env, s: State) {
    && (forall i | 0 <= i < |s.requests| :: PhaseKeyed(env, s.requests[i]))
    && (forall k | 0 <= k < |s.answers| :: AsksFor(env, s.answers[k].asked, s.answers[k].key))
  }

  lemma StepKeepsKeyed(env: Env, s: State, e: Event)
    requires Keyed(env, s) && Enabled(s, e)
    ensures Keyed(env, Apply(env, s, e))
  {
    match e
    case Decide(i, _) => assert PhaseKeyed(env, s.requests[i]);
    case Lookup(i, _, _) => assert PhaseKeyed(env, s.requests[i]);
    case CountHit(i) => assert PhaseKeyed(env, s.requests[i]);
    case CountMiss(i) => assert PhaseKeyed(env, s.requests[i]);
    case Answered(i, _, _, _, _) => assert PhaseKeyed(env, s.requests[i]);
    case _ =>
  }

  /** In every run each lookup, each forward and each cache hit goes by the name, type and class it was asked. */
  lemma {:induction false} RunKeepsKeyed(env: Env, s: State, trace: Trace)
    requires Keyed(env, s) && CanRun(env, s, trace)
    ensures Keyed(env, Run(env, s, trace))
  {
    if trace.Then? {
      RunKeepsKeyed(env, s, trace.before);
      StepKeepsKeyed(env, Run(env, s, trace.before), trace.event);
    }
  }

  // ----- where cached replies come from

  function Expiry(a: Answer): int {
    a.at + Lru.EffectiveTTL(a.limits, a.msg)
  }

  /** Some answer recorded so far is what the entry holds. */
  ghost predicate Sourced(answers: seq<Answer>, entry: Lru.Entry) {
    exists k | 0 <= k < |answers| ::
      answers[k].key == entry.key && answers[k].msg == entry.wire && Cacheable(entry.wire)
        && Expiry(answers[k]) == entry.expires
  }

  /** Read at this moment, the reply is this answer, which lasts, with the id, the question and the TTLs rewritten. */
  ghost predicate Rereads(a: Answer, msg: Msg, reply: Msg, at: int) {
    && Cacheable(a.msg) && at < Expiry(a) && Lru.Lasts(a.limits, a.msg, Expiry(a) - a.at)
    && reply == Lru.Rewritten(a.msg, Some(Lru.Rewrite(msg.id, msg.question)), Lru.Remaining(Expiry(a), at))
  }

  /**
   * The reply is an upstream's NOERROR or NXDOMAIN answer to a message that asked for this very name, type and class,
   * still unexpired when it was read.
   */
  ghost predicate FromAnswer(env: Env, answers: seq<Answer>, msg: Msg, reply: Msg, at: int) {
    exists k | 0 <= k < |answers| :: SameQuestion(env, answers[k].asked, msg) && Rereads(answers[k], msg, reply, at)
  }

  ghost predicate CacheSourced(answers: seq<Answer>, entries: seq<Lru.Entry>) {
    forall e | e in entries :: Sourced(answers, e)
  }

  ghost predicate PhaseSourced(env: Env, answers: seq<Answer>, p: Phase) {
    && (p.Found? ==> FromAnswer(env, answers, p.msg, p.reply, p.at))
    && (p.Replied? && p.response.source == FromCache ==>
          p.origin.CacheHit? && p.response.msg.Some?
          && FromAnswer(env, answers, p.origin.msg, p.response.msg.value, p.origin.at))
  }

  ghost predicate RepliesSourced(env: Env, s: State) {
    forall i | 0 <= i < |s.requests| :: PhaseSourced(env, s.answers, s.requests[i])
  }

  ghost predicate Sound(env: Env, s: State) {
    Lru.Inv(s.cache) && CacheSourced(s.answers, s.cache.entries) && RepliesSourced(env, s) && Keyed(env, s)
  }

  lemma StillFromAnswer(env: Env, answers: seq<Answer>, a: Answer, msg: Msg, reply: Msg, at: int)
    requires FromAnswer(env, answers, msg, reply, at)
    ensures FromAnswer(env, answers + [a], msg, reply, at)
  {
    var k :| 0 <= k < |answers| && SameQuestion(env, answers[k].asked, msg) && Rereads(answers[k], msg, reply, at);
    assert (answers + [a])[k] == answers[k];
  }

  lemma StillSourced(answers: seq<Answer>, a: Answer, entry: Lru.Entry)
    requires Sourced(answers, entry)
    ensures Sourced(answers + [a], entry)
  {
    var k :| 0 <= k < |answers| && answers[k].key == entry.key && answers[k].msg == entry.wire && Cacheable(entry.wire)
      && Expiry(answers[k]) == entry.expires;
    assert (answers + [a])[k] == answers[k];
  }

  lemma PhaseStillSourced(env: Env, answers: seq<Answer>, a: Answer, p: Phase)
    requires PhaseSourced(env, answers, p)
    ensures PhaseSourced(env, answers + [a], p)
  {
    if p.Found? { StillFromAnswer(env, answers, a, p.msg, p.reply, p.at); }
    if p.Replied? && p.response.source == FromCache {
      StillFromAnswer(env, answers, a, p.origin.msg, p.response.msg.value, p.origin.at);
    }
  }

  /** A cache step that stores nothing only keeps entries. */
  lemma CacheStepKeeps(cache: Lru.State, e: Lru.Event, answers: seq<Answer>)
    requires Lru.Inv(cache) && CacheSourced(answers, cache.entries)
    requires e.PutEvent? ==> !Lru.Stores(cache, e.msg, e.packs)
    ensures Lru.Inv(Lru.Step(cache, e)) && CacheSourced(answers, Lru.Step(cache, e).entries)
  {
    Lru.StepKeepsInv(cache, e);
    forall entry | entry in Lru.Step(cache, e).entries ensures Sourced(answers, entry) {
    }
  }

  /** Putting an upstream's answer keeps every entry sourced. */
  lemma AnswerPutKeeps(cache: Lru.State, asked: Msg, key: Lru.Key, msg: Msg, packs: bool, at: int, answers: seq<Answer>)
    requires Lru.Inv(cache) && CacheSourced(answers, cache.entries)
    ensures var e := Lru.PutEvent(key, msg, packs, at);
      && Lru.Inv(Lru.Step(cache, e))
      && CacheSourced(answers + [Answer(asked, key, msg, at, cache.limits)], Lru.Step(cache, e).entries)
  {
    var e, a := Lru.PutEvent(key, msg, packs, at), Answer(asked, key, msg, at, cache.limits);
    Lru.StepKeepsInv(cache, e);
    forall entry | entry in Lru.Step(cache, e).entries ensures Sourced(answers + [a], entry) {
      if Lru.Stores(cache, msg, packs) && entry.key == key {
        assert (answers + [a])[|answers|] == a;
      } else {
        StillSourced(answers, a, entry);
      }
    }
  }

  /** A hit is an earlier answer to the same question. */
  lemma HitFromAnswer(env: Env, s: State, msg: Msg, key: Lru.Key, unpacks: bool, at: int)
    requires CacheSourced(s.answers, s.cache.entries) && Keyed(env, s) && AsksFor(env, msg, key)
    requires Lru.Reply(s.cache, key, Some(Lru.Rewrite(msg.id, msg.question)), unpacks, at).Some?
    ensures var reply := Lru.Reply(s.cache, key, Some(Lru.Rewrite(msg.id, msg.question)), unpacks, at).value;
      FromAnswer(env, s.answers, msg, reply, at)
  {
    var entry := s.cache.entries[Lru.Find(s.cache.entries, key)];
    assert entry in s.cache.entries;
    var k :| 0 <= k < |s.answers| && s.answers[k].key == entry.key && s.answers[k].msg == entry.wire
      && Cacheable(entry.wire)
      && Expiry(s.answers[k]) == entry.expires;
    assert AsksFor(env, s.answers[k].asked, s.answers[k].key);
    Lru.EffectiveLasts(s.answers[k].limits, s.answers[k].msg);
  }

  lemma FailureNotStored(cache: Lru.State, msg: Msg, packs: bool)
    requires Lru.Inv(cache)
    ensures !Lru.Stores(cache, SynthRCode(Some(msg), RCODE_SERVER_FAILURE), packs)
  {
  }

  lemma LookupKeepsSound(env: Env, s: State, e: Event)
    requires Sound(env, s) && Enabled(s, e) && e.Lookup?
    ensures Sound(env, Apply(env, s, e))
  {
    StepKeepsKeyed(env, s, e);
    var msg, key := s.requests[e.i].msg, s.requests[e.i].key;
    var req := Some(Lru.Rewrite(msg.id, msg.question));
    CacheStepKeeps(s.cache, Lru.GetEvent(key, req, e.unpacks, e.at), s.answers);
    assert PhaseKeyed(env, s.requests[e.i]);
    if Lru.Reply(s.cache, key, req, e.unpacks, e.at).Some? { HitFromAnswer(env, s, msg, key, e.unpacks, e.at); }
  }

  lemma AnswerKeepsSound(env: Env, s: State, e: Event)
    requires Sound(env, s) && Enabled(s, e) && e.Answered?
    ensures Sound(env, Apply(env, s, e))
  {
    StepKeepsKeyed(env, s, e);
    var msg, key, t := s.requests[e.i].msg, s.requests[e.i].key, Apply(env, s, e);
    match e.answer
    case Some(resp) =>
      var a := Answer(msg, key, resp, e.at, s.cache.limits);
      AnswerPutKeeps(s.cache, msg, key, resp, e.packs, e.at, s.answers);
      forall i | 0 <= i < |t.requests| ensures PhaseSourced(env, t.answers, t.requests[i]) {
        if i != e.i { PhaseStillSourced(env, s.answers, a, s.requests[i]); }
      }
    case None =>
      FailureNotStored(s.cache, msg, e.packs);
      CacheStepKeeps(s.cache, Lru.PutEvent(key, SynthRCode(Some(msg), RCODE_SERVER_FAILURE), e.packs, e.at), s.answers);
  }

  lemma StepKeepsSound(env: Env, s: State, e: Event)
    requires Sound(env, s) && Enabled(s, e)
    ensures Sound(env, Apply(env, s, e))
  {
    StepKeepsKeyed(env, s, e);
    match e
    case Lookup(_, _, _) => LookupKeepsSound(env, s, e);
    case Answered(_, _, _, _, _) => AnswerKeepsSound(env, s, e);
    case CountHit(i) => assert PhaseSourced(env, s.answers, s.requests[i]);
    case FlushCache => CacheStepKeeps(s.cache, Lru.FlushEvent, s.answers);
    case ReconfigureCache(opts) => CacheStepKeeps(s.cache, Lru.ReconfigureEvent(opts), s.answers);
    case Arrive(_, _, _) =>
    case Decide(_, _) =>
    case CountMiss(_) =>
  }

  /** In every interleaving, each reply served from the cache is an upstream's answer to the same question. */
  lemma {:induction false} CacheRepliesComeFromUpstream(env: Env, s: State, trace: Trace)
    requires Sound(env, s) && CanRun(env, s, trace)
    ensures Sound(env, Run(env, s, trace))
  {
    if trace.Then? {
      CacheRepliesComeFromUpstream(env, s, trace.before);
      StepKeepsSound(env, Run(env, s, trace.before), trace.event);
    }
  }

  lemma StartIsSound(env: Env, opts: Lru.Limits)
    ensures Sound(env, Start(opts)) && Balanced(Start(opts))
  {
    Lru.RunKeepsInv(opts, []);
  }

  /** Both hold in every run of a new pipeline. */
  lemma EveryRun(env: Env, opts: Lru.Limits, trace: Trace)
    requires CanRun(env, Start(opts), trace)
    ensures Sound(env, Run(env, Start(opts), trace)) && Balanced(Run(env, Start(opts), trace))
  {
    StartIsSound(env, opts);
    CacheRepliesComeFromUpstream(env, Start(opts), trace);
    QueriesAddUp(env, Start(opts), trace);
  }

  // ----- blocked queries

  /** How often request `i` reached the cache or an upstream. */
  function Touches(trace: Trace, i: nat): nat {
    match trace
    case Begin => 0
    case Then(before, e) =>
      Touches(before, i) + if (e.Lookup? && e.i == i) || (e.Answered? && e.i == i) then 1 else 0
  }

  predicate Untouched(requests: seq<Phase>, i: nat) {
    i >= |requests| || requests[i].Admitted? || requests[i].LookingUp?
      || (requests[i].Replied? && requests[i].origin.BlockedByPolicy?)
  }

  /** A request that is undecided, or that the policy blocked, was neither looked up in the cache nor forwarded. */
  lemma {:induction false} BlockedStaysOut(env: Env, opts: Lru.Limits, trace: Trace, i: nat)
    requires CanRun(env, Start(opts), trace)
    ensures Untouched(Run(env, Start(opts), trace).requests, i) ==> Touches(trace, i) == 0
  {
    if trace.Then? {
      BlockedStaysOut(env, opts, trace.before, i);
      var s := Run(env, Start(opts), trace.before);
      assert |Apply(env, s, trace.event).requests| >= |s.requests|;
    }
  }

  /** A reply, once given, is never replaced. */
  lemma {:induction false} ReplyIsFinal(env: Env, s: State, trace: Trace, i: nat)
    requires CanRun(env, s, trace) && i < |s.requests| && s.requests[i].Replied?
    ensures i < |Run(env, s, trace).requests| && Run(env, s, trace).requests[i] == s.requests[i]
  {
    if trace.Then? { ReplyIsFinal(env, s, trace.before, i); }
  }

  // ----- one request from start to end

  /** What the outside world does during one request. */
  datatype Inputs = Inputs(allowed: bool, tcp: bool, blocked: bool, unpacks: bool, lookedUpAt: int,
                           answer: Option<Msg>, upstream: string, packs: bool, answeredAt: int)

  /** An empty message with this code, for the id and the first question of the one it answers. */
  predicate Declines(r: Response, msg: Msg, rcode: nat) {
    && r.msg.Some? && r.msg.value.id == msg.id && r.msg.value.opcode == msg.opcode && r.msg.value.rcode == rcode
    && |r.msg.value.question| == (if msg.question == [] then 0 else 1) && r.msg.value.question <= msg.question
    && r.msg.value.answer == r.msg.value.ns == r.msg.value.extra == []
  }

  /**
   * What a query is told before the cache is asked: another opcode, no question and another class are declined, special
   * names answered, blocked ones shown the block page; nothing else is told anything.
   */
  ghost predicate Screens(env: Env, msg: Msg, blocked: bool, told: Option<Response>) {
    if msg.opcode != OPCODE_QUERY then
      told.Some? && told.value.source == Synthetic && Declines(told.value, msg, RCODE_NOT_IMPLEMENTED)
    else if msg.question == [] then
      told.Some? && told.value.source == Synthetic && Declines(told.value, msg, RCODE_FORMAT_ERROR)
    else
      var q := msg.question[0];
      var special := env.special(msg, env.canonical(q.name), q.qtype);
      if q.qclass != CLASS_INET then
        told.Some? && told.value.source == Synthetic && Declines(told.value, msg, RCODE_REFUSED)
      else if special.Some? then told == Some(Response(special, Local))
      else if blocked then told == Some(Response(Some(env.block(msg, q.qtype)), Synthetic))
      else told.None?
  }

  /** No message at all is a failure; over its rate a client is refused on TCP and not answered on UDP. */
  ghost predicate Admits(msg: Option<Msg>, allowed: bool, tcp: bool, told: Option<Response>) {
    match msg
    case None =>
      told.Some? && told.value.source == Synthetic && Declines(told.value, EMPTY_QUERY, RCODE_SERVER_FAILURE)
    case Some(m) =>
      if allowed then told.None?
      else if tcp then
        told.Some? && told.value.source == RateLimit && Declines(told.value, m, RCODE_REFUSED)
      else told == Some(Response(None, RateLimit))
  }

  const EMPTY_QUERY := Msg(0, OPCODE_QUERY, RCODE_SUCCESS, [], [], [], [])

  /** The upstream's answer as it is, and a server failure when there is none. */
  predicate Concludes(msg: Msg, x: Inputs, reply: Response) {
    if x.answer.Some? then reply == Response(x.answer, FromUpstream(x.upstream))
    else reply.source == Synthetic && Declines(reply, msg, RCODE_SERVER_FAILURE)
  }

  /** What one request is told, from beginning to end. */
  ghost predicate Handles(env: Env, msg: Option<Msg>, x: Inputs, reply: Response) {
    || Admits(msg, x.allowed, x.tcp, Some(reply))
    || (msg.Some? && Admits(msg, x.allowed, x.tcp, None)
        && (|| Screens(env, msg.value, x.blocked, Some(reply))
            || (Screens(env, msg.value, x.blocked, None)
                && (reply.source == FromCache || Concludes(msg.value, x, reply)))))
  }

  /** The request is over, and a reply from the cache was looked up for this message at this time. */
  predicate Ends(msg: Option<Msg>, at: int, reply: Response, p: Phase) {
    && p.Replied? && p.response == reply
    && (reply.source == FromCache ==>
          msg.Some? && p.origin.CacheHit? && p.origin.msg == msg.value && p.origin.at == at)
  }

  /** A reply from the cache is an upstream's answer to the same question. */
  ghost predicate Cached(env: Env, msg: Option<Msg>, at: int, reply: Response, s: State) {
    reply.source == FromCache ==>
      msg.Some? && reply.msg.Some? && FromAnswer(env, s.answers, msg.value, reply.msg.value, at)
  }

  lemma CachedReply(env: Env, start: State, trace: Trace, n: nat, msg: Option<Msg>, at: int, reply: Response)
    requires Sound(env, start) && CanRun(env, start, trace) && n < |Run(env, start, trace).requests|
    requires Ends(msg, at, reply, Run(env, start, trace).requests[n])
    ensures Sound(env, Run(env, start, trace)) && Cached(env, msg, at, reply, Run(env, start, trace))
  {
    CacheRepliesComeFromUpstream(env, start, trace);
    assert PhaseSourced(env, Run(env, start, trace).answers, Run(env, start, trace).requests[n]);
  }

  class Pipeline {
    const cache: DnsCache.Cache
    var queryTotal: nat
    var cacheHit: nat
    var cacheMiss: nat
    var blockedTotal: nat
    var rateLimitedTotal: nat
    /** The transition system this pipeline is a run of. */
    ghost var system: State

    /** The cache and the counters are those of the system. */
    ghost predicate Valid()
      reads this, cache, cache.lru, cache.lru.nodes
    {
      && cache.Valid() && system.cache == cache.Abs()
      && system.counters == Counters(queryTotal, cacheHit, cacheMiss, blockedTotal, rateLimitedTotal)
    }

    constructor (cache: DnsCache.Cache)
      requires cache.Valid()
      ensures Valid() && this.cache == cache && system == State(cache.Abs(), Counters(0, 0, 0, 0, 0), 0, 0, 0, [], [])
      ensures Balanced(system) && (cache.Abs().entries == [] ==> forall env :: Sound(env, system))
    {
      cache.ValidImpliesInv();
      this.cache := cache;
      queryTotal, cacheHit, cacheMiss, blockedTotal, rateLimitedTotal := 0, 0, 0, 0, 0;
      system := State(cache.Abs(), Counters(0, 0, 0, 0, 0), 0, 0, 0, [], []);
    }

    /** Rate limiting and the query counter. */
    method Admit(msg: Option<Msg>, x: Inputs) returns (reply: Option<Response>)
      requires Valid()
      modifies this
      ensures Valid() && system == Arrived(old(system), msg, x.allowed, x.tcp)
      ensures var p := system.requests[|old(system).requests|];
        if reply.Some? then p.Replied? && p.response == reply.value else msg.Some? && p == Admitted(msg.value)
      ensures Admits(msg, x.allowed, x.tcp, reply)
    {
      system := Arrived(system, msg, x.allowed, x.tcp);
      if msg.None? { return Some(Response(Some(SynthRCode(None, RCODE_SERVER_FAILURE)), Synthetic)); }
      if !x.allowed {
        rateLimitedTotal := rateLimitedTotal + 1;
        return Some(Response(if x.tcp then Some(SynthRCode(msg, RCODE_REFUSED)) else None, RateLimit));
      }
      queryTotal := queryTotal + 1;
      return None;
    }

    /** Validation, special names and the policy. */
    method Screen(env: Env, ghost i: nat, msg: Msg, blocked: bool) returns (reply: Option<Response>, key: Lru.Key)
      requires Valid() && i < |system.requests| && system.requests[i] == Admitted(msg)
      modifies this
      ensures Valid() && system == Decided(env, old(system), i, blocked)
      ensures var p := system.requests[i];
        if reply.Some? then p.Replied? && p.response == reply.value else p == LookingUp(msg, key)
      ensures Screens(env, msg, blocked, reply) && (reply.None? ==> AsksFor(env, msg, key))
    {
      system := Decided(env, system, i, blocked);
      key := Lru.Key("", 0, 0);
      if msg.opcode != OPCODE_QUERY {
        return Some(Response(Some(SynthRCode(Some(msg), RCODE_NOT_IMPLEMENTED)), Synthetic)), key;
      }
      if msg.question == [] { return Some(Response(Some(SynthRCode(Some(msg), RCODE_FORMAT_ERROR)), Synthetic)), key; }
      var q := msg.question[0];
      if q.qclass != CLASS_INET { return Some(Response(Some(SynthRCode(Some(msg), RCODE_REFUSED)), Synthetic)), key; }
      var qname := env.canonical(q.name);
      var special := env.special(msg, qname, q.qtype);
      if special.Some? { return Some(Response(special, Local)), key; }
      if blocked {
        blockedTotal := blockedTotal + 1;
        return Some(Response(Some(env.block(msg, q.qtype)), Synthetic)), key;
      }
      return None, Lru.Key(qname, q.qtype, q.qclass);
    }

    /** The cache. */
    method Fetch(ghost i: nat, msg: Msg, key: Lru.Key, x: Inputs) returns (cached: Option<Msg>)
      requires Valid() && i < |system.requests| && system.requests[i] == LookingUp(msg, key)
      modifies this`system, cache, cache.lru, cache.lru.nodes
      ensures Valid() && forall k | 0 <= k < |cache.lru.nodes| :: cache.lru.nodes[k] in old(cache.lru.nodes)
      ensures system == LookedUp(old(system), i, x.unpacks, x.lookedUpAt)
      ensures system.requests[i] ==
        match cached case Some(m) => Found(msg, key, m, x.lookedUpAt) case None => Missed(msg, key)
    {
      system := LookedUp(system, i, x.unpacks, x.lookedUpAt);
      cached := cache.Get(key, Some(Lru.Rewrite(msg.id, msg.question)), x.unpacks, x.lookedUpAt);
      forall k | 0 <= k < |cache.lru.nodes| ensures cache.lru.nodes[k] in old(cache.lru.nodes) {
        assert cache.lru.nodes[k] in DnsCache.Elements(cache.lru.nodes);
      }
    }

    /** The counter of hits or misses. */
    method Tally(ghost i: nat, msg: Msg, key: Lru.Key, cached: Option<Msg>, ghost at: int)
      returns (reply: Option<Response>)
      requires Valid() && i < |system.requests|
      requires system.requests[i] == match cached case Some(m) => Found(msg, key, m, at) case None => Missed(msg, key)
      modifies this
      ensures Valid() && system == (if cached.Some? then HitCounted(old(system), i) else MissCounted(old(system), i))
      ensures match reply
        case Some(r) => cached.Some? && r == Response(cached, FromCache)
          && system.requests[i] == Replied(r, CacheHit(msg, key, at))
        case None => cached.None? && system.requests[i] == Forwarding(msg, key)
    {
      if cached.Some? {
        system := HitCounted(system, i);
        cacheHit := cacheHit + 1;
        return Some(Response(cached, FromCache));
      }
      system := MissCounted(system, i);
      cacheMiss := cacheMiss + 1;
      return None;
    }

    /** The upstream's answer, or a failure of ours; either is offered to the cache. */
    method Conclude(ghost i: nat, msg: Msg, key: Lru.Key, x: Inputs) returns (reply: Response)
      requires Valid() && i < |system.requests| && system.requests[i] == Forwarding(msg, key)
      modifies this, cache, cache.lru, cache.lru.nodes
      ensures Valid() && system == Concluded(old(system), i, x.answer, x.upstream, x.packs, x.answeredAt)
      ensures system.requests[i].Replied? && system.requests[i].response == reply
      ensures Concludes(msg, x, reply)
    {
      system := Concluded(system, i, x.answer, x.upstream, x.packs, x.answeredAt);
      if x.answer.Some? {
        cache.Put(key, x.answer.value, x.packs, x.answeredAt);
        return Response(x.answer, FromUpstream(x.upstream));
      }
      var failure := SynthRCode(Some(msg), RCODE_SERVER_FAILURE);
      cache.Put(key, failure, x.packs, x.answeredAt);
      return Response(Some(failure), Synthetic);
    }

    /** The cache, then the upstream. */
    method Resolve(env: Env, ghost i: nat, msg: Msg, key: Lru.Key, x: Inputs, ghost start: State, ghost before: Trace)
      returns (reply: Response, ghost trace: Trace)
      requires Valid() && i < |system.requests| && system.requests[i] == LookingUp(msg, key)
      requires CanRun(env, start, before) && system == Run(env, start, before)
      modifies this, cache, cache.lru, cache.lru.nodes
      ensures Valid() && CanRun(env, start, trace) && system == Run(env, start, trace)
      ensures |system.requests| == |old(system).requests|
      ensures system.requests[i].Replied? && system.requests[i].response == reply
      ensures if reply.source == FromCache
        then reply.msg.Some? && system.requests[i].origin == CacheHit(msg, key, x.lookedUpAt)
        else Concludes(msg, x, reply)
    {
      var hit;
      hit, trace := Lookups(env, i, msg, key, x, start, before);
      if hit.Some? { return hit.value, trace; }
      OneMore(env, start, trace, Answered(i, x.answer, x.upstream, x.packs, x.answeredAt));
      reply := Conclude(i, msg, key, x);
      trace := Then(trace, Answered(i, x.answer, x.upstream, x.packs, x.answeredAt));
    }

    method Lookups(env: Env, ghost i: nat, msg: Msg, key: Lru.Key, x: Inputs, ghost start: State, ghost before: Trace)
      returns (hit: Option<Response>, ghost trace: Trace)
      requires Valid() && i < |system.requests| && system.requests[i] == LookingUp(msg, key)
      requires CanRun(env, start, before) && system == Run(env, start, before)
      modifies this, cache, cache.lru, cache.lru.nodes
      ensures Valid() && forall k | 0 <= k < |cache.lru.nodes| :: cache.lru.nodes[k] in old(cache.lru.nodes)
      ensures CanRun(env, start, trace) && system == Run(env, start, trace)
        && |system.requests| == |old(system).requests|
      ensures match hit
        case Some(r) => r.source == FromCache && r.msg.Some?
          && system.requests[i] == Replied(r, CacheHit(msg, key, x.lookedUpAt))
        case None => system.requests[i] == Forwarding(msg, key)
    {
      OneMore(env, start, before, Lookup(i, x.unpacks, x.lookedUpAt));
      var cached := Fetch(i, msg, key, x);
      trace := Then(before, Lookup(i, x.unpacks, x.lookedUpAt));
      OneMore(env, start, trace, if cached.Some? then CountHit(i) else CountMiss(i));
      hit := Tally(i, msg, key, cached, x.lookedUpAt);
      trace := Then(trace, if cached.Some? then CountHit(i) else CountMiss(i));
    }

    /**
     * Handles one request; the steps it takes are a run of the system. A reply from the cache is an upstream's answer
     * to the same question.
     */
    method Handle(env: Env, msg: Option<Msg>, x: Inputs) returns (reply: Response, ghost trace: Trace)
      requires Valid()
      modifies this, cache, cache.lru, cache.lru.nodes
      ensures Valid() && CanRun(env, old(system), trace) && system == Run(env, old(system), trace)
      ensures |system.requests| == |old(system).requests| + 1
      ensures var p := system.requests[|old(system).requests|]; p.Replied? && p.response == reply
      ensures Handles(env, msg, x, reply)
      ensures old(Sound(env, system)) ==> Sound(env, system) && Cached(env, msg, x.lookedUpAt, reply, system)
    {
      ghost var start, n := system, |system.requests|;
      reply, trace := HandleSteps(env, msg, x);
      if Sound(env, start) { CachedReply(env, start, trace, n, msg, x.lookedUpAt, reply); }
    }

    method HandleSteps(env: Env, msg: Option<Msg>, x: Inputs) returns (reply: Response, ghost trace: Trace)
      requires Valid()
      modifies this, cache, cache.lru, cache.lru.nodes
      ensures Valid() && CanRun(env, old(system), trace) && system == Run(env, old(system), trace)
      ensures |system.requests| == |old(system).requests| + 1
      ensures Handles(env, msg, x, reply)
      ensures Ends(msg, x.lookedUpAt, reply, system.requests[|old(system).requests|])
    {
      ghost var start, n := system, |system.requests|;
      var early := Admit(msg, x);
      trace := Then(Begin, Arrive(msg, x.allowed, x.tcp));
      assert CanRun(env, start, trace) && system == Run(env, start, trace) by { assert CanRun(env, start, Begin); }
      if early.Some? { return early.value, trace; }
      var screened, key := Screen(env, n, msg.value, x.blocked);
      trace := Then(trace, Decide(n, x.blocked));
      assert CanRun(env, start, trace) && system == Run(env, start, trace);
      if screened.Some? { return screened.value, trace; }
      reply, trace := Resolve(env, n, msg.value, key, x, start, trace);
    }
  }
}

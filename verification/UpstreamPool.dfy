/**
 * The upstream pool: a circuit breaker per upstream and failover in rounds
 * (internal/upstream/pool.go). Every section under the mutex is one event; a
 * forward takes its events one at a time, and any events of other callers may
 * come in between.
 */
module UpstreamPool {
  import opened Options
  import opened DnsMessages

  // ----- the breaker as a state machine over events

  datatype Upstream = Upstream(id: string, circuitBreakerThreshold: int)

  datatype Client = Client(id: string, threshold: nat, healthy: bool, errors: nat)

  datatype Event =
    | Replaced(upstreams: seq<Upstream>)
    | Succeeded(id: string)
    | Failed(id: string)

  const DEFAULT_THRESHOLD := 3
  const MAX_RETRIES := 2

  function Threshold(u: Upstream): (t: nat) {
    if u.circuitBreakerThreshold > 0 then u.circuitBreakerThreshold else DEFAULT_THRESHOLD
  }

  function Configured(u: Upstream): Client {
    Client(u.id, Threshold(u), true, 0)
  }

  /** The index of the first client with this id, the only one that events reach; the length when there is none. */
  function First(clients: seq<Client>, id: string): (i: nat)
    ensures i <= |clients|
    ensures i < |clients| ==> clients[i].id == id
    ensures forall j | 0 <= j < i :: clients[j].id != id
  {
    if clients == [] then 0
    else if clients[0].id == id then 0
    else 1 + First(clients[1..], id)
  }

  function OnSuccess(c: Client): Client {
    c.(errors := 0, healthy := true)
  }

  function OnFailure(c: Client): Client {
    c.(errors := c.errors + 1, healthy := c.healthy && c.errors + 1 < c.threshold)
  }

  function Step(clients: seq<Client>, e: Event): seq<Client> {
    match e
    case Replaced(upstreams) => seq(|upstreams|, i requires 0 <= i < |upstreams| => Configured(upstreams[i]))
    case Succeeded(id) =>
      var i := First(clients, id);
      if i < |clients| then clients[i := OnSuccess(clients[i])] else clients
    case Failed(id) =>
      var i := First(clients, id);
      if i < |clients| then clients[i := OnFailure(clients[i])] else clients
  }

  /** Everything that happened to a pool, the last event outermost. */
  datatype History = Created | After(before: History, event: Event)

  function Run(history: History): seq<Client> {
    match history
    case Created => []
    case After(before, event) => Step(Run(before), event)
  }

  function Extended(history: History, events: seq<Event>): History
    decreases |events|
  {
    if events == [] then history else Extended(After(history, events[0]), events[1..])
  }

  /** Consecutive failures of `id`: those since its last success or the last configuration. */
  function Streak(history: History, id: string): (n: nat) {
    match history
    case Created => 0
    case After(_, Replaced(_)) => 0
    case After(before, Succeeded(who)) => if who == id then 0 else Streak(before, id)
    case After(before, Failed(who)) => Streak(before, id) + if who == id then 1 else 0
  }

  /** The configuration in force. */
  function Current(history: History): seq<Upstream> {
    match history
    case Created => []
    case After(before, event) => if event.Replaced? then event.upstreams else Current(before)
  }

  predicate FirstOfItsId(upstreams: seq<Upstream>, i: nat)
    requires i < |upstreams|
  {
    forall j | 0 <= j < i :: upstreams[j].id != upstreams[i].id
  }

  lemma FirstIsUnique(clients: seq<Client>, id: string, i: nat)
    requires i < |clients| && clients[i].id == id && forall j | 0 <= j < i :: clients[j].id != id
    ensures First(clients, id) == i
  {
  }

  /** What the breaker knows of upstream `i` after a run. */
  function Breaker(history: History, u: Upstream, first: bool): Client {
    var streak := if first then Streak(history, u.id) else 0;
    Client(u.id, Threshold(u), streak < Threshold(u), streak)
  }

  /**
   * After any interleaving of events, an upstream is healthy iff its consecutive
   * failures are below its threshold. A later upstream that repeats an id is
   * never blamed, so it stays healthy.
   */
  lemma {:induction false} HealthIsStreak(history: History)
    ensures var upstreams := Current(history);
      && |Run(history)| == |upstreams|
      && forall i | 0 <= i < |upstreams| ::
           Run(history)[i] == Breaker(history, upstreams[i], FirstOfItsId(upstreams, i))
  {
    if history.After? {
      var before, e := history.before, history.event;
      HealthIsStreak(before);
      var upstreams, clients := Current(history), Run(before);
      if !e.Replaced? {
        forall i | 0 <= i < |upstreams|
          ensures Run(history)[i] == Breaker(history, upstreams[i], FirstOfItsId(upstreams, i))
        {
          assert clients[i] == Breaker(before, upstreams[i], FirstOfItsId(upstreams, i));
          assert forall j | 0 <= j < |upstreams| :: clients[j].id == upstreams[j].id;
          if upstreams[i].id == e.id && FirstOfItsId(upstreams, i) { FirstIsUnique(clients, e.id, i); }
        }
      }
    }
  }

  /** So the first upstream with its id goes out of service after as many failures in a row as configured, or three. */
  lemma TripsWhenConfigured(history: History, i: nat)
    requires i < |Current(history)| && FirstOfItsId(Current(history), i)
    ensures |Run(history)| == |Current(history)|
    ensures var u := Current(history)[i];
      var most := if u.circuitBreakerThreshold > 0 then u.circuitBreakerThreshold else 3;
      Run(history)[i].healthy <==> Streak(history, u.id) < most
  {
    HealthIsStreak(history);
  }

  /** The health reported for an id. */
  function HealthyIn(clients: seq<Client>, id: string): bool {
    var i := First(clients, id);
    i < |clients| && clients[i].healthy
  }

  /**
   * IsHealthy reports whether some upstream has the id and its consecutive failures are below the threshold of
   * the first.
   */
  lemma ReportedHealthIsStreak(history: History, id: string)
    ensures HealthyIn(Run(history), id)
       <==> exists i | 0 <= i < |Current(history)| ::
              && Current(history)[i].id == id && FirstOfItsId(Current(history), i)
              && Streak(history, id) < Threshold(Current(history)[i])
  {
    HealthIsStreak(history);
    var upstreams, clients := Current(history), Run(history);
    assert forall j | 0 <= j < |upstreams| :: clients[j].id == upstreams[j].id;
    var k := First(clients, id);
    if k < |clients| {
      assert FirstOfItsId(upstreams, k);
      forall i | 0 <= i < |upstreams| && upstreams[i].id == id && FirstOfItsId(upstreams, i) ensures i == k {
        FirstIsUnique(clients, id, i);
      }
    }
  }

  /** The ids of the upstreams in (or out of) service, in order. */
  function Ids(clients: seq<Client>, healthy: bool): seq<string> {
    if clients == [] then []
    else
      var rest := Ids(clients[..|clients| - 1], healthy);
      var last := clients[|clients| - 1];
      if last.healthy == healthy then rest + [last.id] else rest
  }

  /** One more upstream is listed last if it is in that state, and not at all otherwise. */
  lemma IdsOneMore(clients: seq<Client>, c: Client, healthy: bool)
    ensures Ids([], healthy) == []
    ensures Ids(clients + [c], healthy) == Ids(clients, healthy) + if c.healthy == healthy then [c.id] else []
  {
    assert (clients + [c])[..|clients|] == clients;
  }

  // ----- forwarding

  datatype Attempt = Attempt(id: string, ok: bool, healthy: bool)

  datatype Error = NoMessage | NotFound | NoHealthyUpstreams | ForwardFailed | Cancelled

  /**
   * One exchange with an upstream: the answer, and what others do to the pool meanwhile and before the health is
   * read.
   */
  datatype Turn = Turn(answer: Option<Msg>, meanwhile: seq<Event>, beforeReading: seq<Event>)

  datatype Forwarded = Forwarded(answer: Option<Msg>, source: string, attempts: seq<Attempt>, error: Option<Error>)

  /** The order of attempts: the snapshot, round after round. */
  function Rounds(ids: seq<string>, n: nat): seq<string> {
    if n == 0 then [] else Rounds(ids, n - 1) + ids
  }

  /** Round `m` of `n` is the snapshot again. */
  lemma {:induction false} RoundInPlan(ids: seq<string>, m: nat, n: nat)
    requires m < n
    ensures |Rounds(ids, m)| + |ids| == |Rounds(ids, m + 1)| <= |Rounds(ids, n)|
    ensures Rounds(ids, n)[|Rounds(ids, m)|..|Rounds(ids, m)| + |ids|] == ids
  {
    if m + 1 < n { RoundInPlan(ids, m, n - 1); }
  }

  /** At most three rounds, each through the snapshot in order. */
  predicate ThreeRounds(attempts: seq<Attempt>, ids: seq<string>) {
    && |attempts| <= 3 * |ids|
    && forall k | 0 <= k < |attempts| ::
         attempts[k].id == if k < |ids| then ids[k] else if k < 2 * |ids| then ids[k - |ids|] else ids[k - 2 * |ids|]
  }

  lemma PlanOfThree(ids: seq<string>)
    ensures Rounds(ids, MAX_RETRIES + 1) == ids + ids + ids
  {
    assert Rounds(ids, 0) == [] && Rounds(ids, 1) == [] + ids && Rounds(ids, 2) == [] + ids + ids;
    assert [] + ids == ids;
  }

  lemma PlanIsThreeRounds(attempts: seq<Attempt>, history: History, ids: seq<string>, turns: nat -> Turn)
    requires |attempts| <= |Rounds(ids, MAX_RETRIES + 1)|
    requires Records(attempts, history, Rounds(ids, MAX_RETRIES + 1), turns)
    ensures ThreeRounds(attempts, ids) && |Rounds(ids, MAX_RETRIES + 1)| == 3 * |ids|
  {
    var plan := Rounds(ids, MAX_RETRIES + 1);
    PlanOfThree(ids);
    forall k | 0 <= k < |attempts| ensures attempts[k].id == plan[k] {
      assert RecordsTurn(attempts[k], history, plan, turns, k);
    }
  }

  /** The history once a turn is over and the health has been read. */
  function AfterTurn(history: History, id: string, turn: Turn): History {
    var during := Extended(history, turn.meanwhile);
    if turn.answer.Some? then After(during, Succeeded(id))
    else Extended(After(during, Failed(id)), turn.beforeReading)
  }

  /** The pool's history after the first `n` turns of a forward. */
  function HistoryAfter(history: History, plan: seq<string>, turns: nat -> Turn, n: nat): History
    requires n <= |plan|
  {
    if n == 0 then history else AfterTurn(HistoryAfter(history, plan, turns, n - 1), plan[n - 1], turns(n - 1))
  }

  /** Attempt `k` names its upstream, its outcome, and the health read after it. */
  predicate RecordsTurn(a: Attempt, history: History, plan: seq<string>, turns: nat -> Turn, k: nat)
    requires k < |plan|
  {
    && a.id == plan[k]
    && a.ok == turns(k).answer.Some?
    && a.healthy == (a.ok || HealthyIn(Run(HistoryAfter(history, plan, turns, k + 1)), a.id))
  }

  predicate Records(attempts: seq<Attempt>, history: History, plan: seq<string>, turns: nat -> Turn)
    requires |attempts| <= |plan|
  {
    forall k {:trigger RecordsTurn(attempts[k], history, plan, turns, k)} | 0 <= k < |attempts| ::
      RecordsTurn(attempts[k], history, plan, turns, k)
  }

  /** The pool's history after the first `n` probes. */
  function HistoryAfterProbes(history: History, ids: seq<string>, turns: nat -> Turn, n: nat): History
    requires n <= |ids|
  {
    if n == 0 then history
    else
      var during := Extended(HistoryAfterProbes(history, ids, turns, n - 1), turns(n - 1).meanwhile);
      if turns(n - 1).answer.Some? then After(during, Succeeded(ids[n - 1])) else during
  }

  predicate FailedBefore(attempts: seq<Attempt>, n: nat)
    requires n <= |attempts|
  {
    forall k | 0 <= k < n :: !attempts[k].ok
  }

  lemma Recorded(attempts: seq<Attempt>, history: History, plan: seq<string>, turns: nat -> Turn)
    requires 0 < |attempts| <= |plan| && Records(attempts, history, plan, turns)
    ensures attempts[|attempts| - 1].ok == turns(|attempts| - 1).answer.Some?
  {
    assert RecordsTurn(attempts[|attempts| - 1], history, plan, turns, |attempts| - 1);
  }

  /** One more turn, recorded. */
  lemma RecordOneMore(attempts: seq<Attempt>, a: Attempt, history: History, plan: seq<string>, turns: nat -> Turn)
    requires |attempts| < |plan| && Records(attempts, history, plan, turns) && FailedBefore(attempts, |attempts|)
    requires RecordsTurn(a, history, plan, turns, |attempts|)
    ensures Records(attempts + [a], history, plan, turns) && FailedBefore(attempts + [a], |attempts|)
    ensures !a.ok ==> FailedBefore(attempts + [a], |attempts| + 1)
  {
    forall k | 0 <= k <= |attempts| ensures RecordsTurn((attempts + [a])[k], history, plan, turns, k) {
      if k < |attempts| { assert RecordsTurn(attempts[k], history, plan, turns, k); }
    }
  }

  /** What a forward over the healthy snapshot `ids` returns. */
  predicate FirstSuccess(r: Forwarded, history: History, ids: seq<string>, retries: nat, turns: nat -> Turn,
                         cancelled: nat -> bool) {
    var plan := Rounds(ids, retries + 1);
    && |r.attempts| <= |plan| && Records(r.attempts, history, plan, turns)
    && (r.error.None? <==> r.answer.Some?)
    && (if r.answer.Some? then Succeeds(r, turns)
        else r.source == "" && FailedBefore(r.attempts, |r.attempts|) && Stops(r, ids, retries, cancelled))
  }

  /** The last attempt is the one that answered. */
  predicate Succeeds(r: Forwarded, turns: nat -> Turn) {
    var n := |r.attempts|;
    && n > 0 && FailedBefore(r.attempts, n - 1) && r.attempts[n - 1].ok
    && r.answer == turns(n - 1).answer && r.source == r.attempts[n - 1].id
  }

  /** Without an answer, either a pause between whole rounds was cancelled or every round was made. */
  predicate Stops(r: Forwarded, ids: seq<string>, retries: nat, cancelled: nat -> bool) {
    if r.error == Some(Cancelled) then
      exists round: nat | round < retries :: cancelled(round) && |r.attempts| == |Rounds(ids, round + 1)|
    else
      && |r.attempts| == |Rounds(ids, retries + 1)|
      && (forall round: nat | round < retries :: !cancelled(round))
      && r.error == Some(if ids == [] then NoHealthyUpstreams else ForwardFailed)
  }

  // ----- what a whole call does to the breaker

  ghost predicate Quiet(turns: nat -> Turn) {
    forall k: nat :: turns(k).meanwhile == [] && turns(k).beforeReading == []
  }

  function Count(ids: seq<string>, id: string, n: nat): nat
    requires n <= |ids|
  {
    if n == 0 then 0 else Count(ids, id, n - 1) + if ids[n - 1] == id then 1 else 0
  }

  /**
   * Undisturbed failed attempts add up in each upstream's streak, so a forward that is all failures trips every
   * breaker it fills.
   */
  lemma {:induction false} FailedAttemptsAddUp(history: History, plan: seq<string>, turns: nat -> Turn, n: nat,
                                               id: string)
    requires n <= |plan| && Quiet(turns) && forall k: nat | k < n :: turns(k).answer.None?
    ensures Streak(HistoryAfter(history, plan, turns, n), id) == Streak(history, id) + Count(plan, id, n)
    ensures Current(HistoryAfter(history, plan, turns, n)) == Current(history)
  {
    if n > 0 { FailedAttemptsAddUp(history, plan, turns, n - 1, id); }
  }

  /** Undisturbed probes change no streak but those of the upstreams that answered, which they clear. */
  lemma {:induction false} ProbesOnlyHeal(history: History, ids: seq<string>, turns: nat -> Turn, n: nat, id: string)
    requires n <= |ids| && Quiet(turns)
    ensures var answered := exists k: nat | k < n :: ids[k] == id && turns(k).answer.Some?;
      Streak(HistoryAfterProbes(history, ids, turns, n), id) == if answered then 0 else Streak(history, id)
    ensures Current(HistoryAfterProbes(history, ids, turns, n)) == Current(history)
  {
    if n > 0 { ProbesOnlyHeal(history, ids, turns, n - 1, id); }
  }

  // ----- the pool on the heap

  class PooledClient {
    const id: string
    const threshold: nat
    var healthy: bool
    var errors: nat

    constructor (u: Upstream)
      ensures AsClient() == Configured(u)
    {
      id, threshold := u.id, if u.circuitBreakerThreshold > 0 then u.circuitBreakerThreshold else DEFAULT_THRESHOLD;
      healthy, errors := true, 0;
    }

    function AsClient(): Client
      reads this
    {
      Client(id, threshold, healthy, errors)
    }
  }

  class Pool {
    var clients: seq<PooledClient>
    ghost var repr: set<object>
    ghost var history: History

    ghost predicate Valid()
      reads this, repr
    {
      Distinct() && Stands(Run(history))
    }

    ghost predicate Distinct()
      reads this
    {
      && this !in repr
      && (forall i, j | 0 <= i < j < |clients| :: clients[i] != clients[j])
      && (forall i | 0 <= i < |clients| :: clients[i] in repr)
    }

    ghost predicate Stands(state: seq<Client>)
      requires Distinct()
      reads this, repr
    {
      && |clients| == |state|
      && forall i | 0 <= i < |clients| :: clients[i].AsClient() == state[i]
    }

    constructor (upstreams: seq<Upstream>)
      ensures Valid() && fresh(repr) && history == After(Created, Replaced(upstreams))
    {
      clients, history, repr := [], Created, {};
      new;
      Replace(upstreams);
    }

    /** Replaces every upstream, all healthy. */
    method Replace(upstreams: seq<Upstream>)
      requires Valid()
      modifies this
      ensures Valid() && fresh(repr - old(repr)) && history == After(old(history), Replaced(upstreams))
    {
      clients := [];
      for i := 0 to |upstreams|
        invariant |clients| == i && Distinct() && fresh(repr - old(repr)) && history == old(history)
        invariant forall j | 0 <= j < i :: clients[j].AsClient() == Configured(upstreams[j])
      {
        var c := new PooledClient(upstreams[i]);
        clients := clients + [c];
        repr := repr + {c};
      }
      history := After(history, Replaced(upstreams));
    }

    method MarkSuccess(id: string)
      requires Valid()
      modifies this`history, repr
      ensures Valid() && history == After(old(history), Succeeded(id))
    {
      ghost var state := Run(history);
      history := After(history, Succeeded(id));
      for i := 0 to |clients|
        invariant forall j | 0 <= j < i :: state[j].id != id
        invariant Stands(state)
      {
        var candidate := clients[i];
        if candidate.id == id {
          FirstIsUnique(state, id, i);
          candidate.errors := 0;
          candidate.healthy := true;
          return;
        }
      }
    }

    method MarkFailure(id: string)
      requires Valid()
      modifies this`history, repr
      ensures Valid() && history == After(old(history), Failed(id))
    {
      ghost var state := Run(history);
      history := After(history, Failed(id));
      for i := 0 to |clients|
        invariant forall j | 0 <= j < i :: state[j].id != id
        invariant Stands(state)
      {
        var candidate := clients[i];
        if candidate.id == id {
          FirstIsUnique(state, id, i);
          candidate.errors := candidate.errors + 1;
          if candidate.errors >= candidate.threshold { candidate.healthy := false; }
          return;
        }
      }
    }

    method IsHealthy(id: string) returns (healthy: bool)
      requires Valid()
      ensures healthy == HealthyIn(Run(history), id)
    {
      for i := 0 to |clients|
        invariant forall j | 0 <= j < i :: clients[j].id != id
      {
        if clients[i].id == id {
          FirstIsUnique(Run(history), id, i);
          return clients[i].healthy;
        }
      }
      return false;
    }

    /** The ids in (or out of) service, in configuration order. */
    method Snapshot(healthy: bool) returns (ids: seq<string>)
      requires Valid()
      ensures ids == Ids(Run(history), healthy)
    {
      ids := [];
      ghost var state := Run(history);
      for i := 0 to |clients|
        invariant ids == Ids(state[..i], healthy)
      {
        assert state[..i + 1][..i] == state[..i];
        if clients[i].healthy == healthy { ids := ids + [clients[i].id]; }
      }
      assert state[..|clients|] == state;
    }

    method Apply(event: Event)
      requires Valid()
      modifies this, repr
      ensures Valid() && fresh(repr - old(repr)) && history == After(old(history), event)
    {
      match event {
        case Replaced(upstreams) => Replace(upstreams);
        case Succeeded(id) => MarkSuccess(id);
        case Failed(id) => MarkFailure(id);
      }
    }

    /** Other callers' steps. */
    method Interfere(events: seq<Event>)
      requires Valid()
      modifies this, repr
      ensures Valid() && fresh(repr - old(repr)) && history == Extended(old(history), events)
    {
      if events != [] {
        Apply(events[0]);
        Interfere(events[1..]);
      }
    }

    /** One attempt of a forward. */
    method Try(id: string, turn: Turn) returns (a: Attempt)
      requires Valid()
      modifies this, repr
      ensures Valid() && fresh(repr - old(repr)) && history == AfterTurn(old(history), id, turn)
      ensures a.id == id && a.ok == turn.answer.Some? && a.healthy == (a.ok || HealthyIn(Run(history), id))
    {
      Interfere(turn.meanwhile);
      if turn.answer.Some? {
        MarkSuccess(id);
        return Attempt(id, true, true);
      }
      MarkFailure(id);
      Interfere(turn.beforeReading);
      var healthy := IsHealthy(id);
      return Attempt(id, false, healthy);
    }

    /** One round over the snapshot, up to the first success. */
    method Round(ids: seq<string>, turns: nat -> Turn, soFar: seq<Attempt>, ghost start: History,
                 ghost plan: seq<string>)
      returns (attempts: seq<Attempt>, won: bool)
      requires Valid() && |soFar| + |ids| <= |plan| && plan[|soFar|..|soFar| + |ids|] == ids
      requires Records(soFar, start, plan, turns) && FailedBefore(soFar, |soFar|)
      requires history == HistoryAfter(start, plan, turns, |soFar|)
      modifies this, repr
      ensures Valid() && fresh(repr - old(repr))
      ensures |soFar| <= |attempts| <= |soFar| + |ids|
      ensures Records(attempts, start, plan, turns) && history == HistoryAfter(start, plan, turns, |attempts|)
      ensures !won ==> FailedBefore(attempts, |attempts|) && |attempts| == |soFar| + |ids|
      ensures won ==> attempts != [] && FailedBefore(attempts, |attempts| - 1) && attempts[|attempts| - 1].ok
    {
      attempts, won := soFar, false;
      for i := 0 to |ids|
        invariant Valid() && fresh(repr - old(repr))
        invariant |attempts| == |soFar| + i
        invariant Records(attempts, start, plan, turns) && FailedBefore(attempts, |attempts|)
        invariant history == HistoryAfter(start, plan, turns, |attempts|)
      {
        assert ids[i] == plan[|attempts|];
        var a := Try(ids[i], turns(|attempts|));
        assert history == HistoryAfter(start, plan, turns, |attempts| + 1);
        RecordOneMore(attempts, a, start, plan, turns);
        attempts := attempts + [a];
        if a.ok { return attempts, true; }
      }
    }

    /** Round number `rounds` of the plan. */
    method NextRound(ids: seq<string>, turns: nat -> Turn, soFar: seq<Attempt>, ghost rounds: nat,
                     ghost plan: seq<string>,
                     ghost retries: nat, ghost start: History)
      returns (attempts: seq<Attempt>, won: bool)
      requires Valid() && rounds <= retries && plan == Rounds(ids, retries + 1)
      requires |soFar| == |Rounds(ids, rounds)| <= |plan|
      requires Records(soFar, start, plan, turns) && FailedBefore(soFar, |soFar|)
      requires history == HistoryAfter(start, plan, turns, |soFar|)
      modifies this, repr
      ensures Valid() && fresh(repr - old(repr)) && |attempts| <= |plan|
      ensures Records(attempts, start, plan, turns) && history == HistoryAfter(start, plan, turns, |attempts|)
      ensures !won ==> FailedBefore(attempts, |attempts|) && |attempts| == |Rounds(ids, rounds + 1)|
      ensures won ==> attempts != [] && FailedBefore(attempts, |attempts| - 1) && attempts[|attempts| - 1].ok
    {
      RoundInPlan(ids, rounds, retries + 1);
      attempts, won := Round(ids, turns, soFar, start, plan);
    }

    /** All rounds, up to the first success or a cancelled pause. */
    method AllRounds(ids: seq<string>, retries: nat, turns: nat -> Turn, cancelled: nat -> bool)
      returns (attempts: seq<Attempt>, won: bool, rounds: nat)
      requires Valid()
      modifies this, repr
      ensures Valid() && fresh(repr - old(repr))
      ensures |attempts| <= |Rounds(ids, retries + 1)|
      ensures Records(attempts, old(history), Rounds(ids, retries + 1), turns)
      ensures history == HistoryAfter(old(history), Rounds(ids, retries + 1), turns, |attempts|)
      ensures won ==> attempts != [] && FailedBefore(attempts, |attempts| - 1) && attempts[|attempts| - 1].ok
      ensures !won ==> FailedBefore(attempts, |attempts|) && |attempts| == |Rounds(ids, rounds)|
      ensures !won ==> 0 < rounds <= retries + 1 && (rounds <= retries ==> cancelled(rounds - 1))
                       && forall k: nat | k < rounds - 1 :: !cancelled(k)
    {
      ghost var start, plan := history, Rounds(ids, retries + 1);
      attempts, rounds := [], 0;
      while true
        invariant Valid() && fresh(repr - old(repr))
        invariant rounds <= retries && |attempts| == |Rounds(ids, rounds)| <= |plan|
        invariant Records(attempts, start, plan, turns) && FailedBefore(attempts, |attempts|)
        invariant history == HistoryAfter(start, plan, turns, |attempts|)
        invariant forall k: nat | k < rounds :: !cancelled(k)
        decreases retries - rounds
      {
        attempts, won := NextRound(ids, turns, attempts, rounds, plan, retries, start);
        rounds := rounds + 1;
        if won || rounds > retries || cancelled(rounds - 1) { return; }
      }
    }

    /** Tries the healthy upstreams in order, for at most three rounds, and returns the first success. */
    method Forward(request: Option<Msg>, turns: nat -> Turn, cancelled: nat -> bool) returns (r: Forwarded)
      requires Valid()
      modifies this, repr
      ensures Valid() && fresh(repr - old(repr))
      ensures request.None? ==> r == Forwarded(None, "", [], Some(NoMessage)) && history == old(history)
      ensures request.Some? ==>
        var ids := Ids(Run(old(history)), true);
        && FirstSuccess(r, old(history), ids, MAX_RETRIES, turns, cancelled)
        && history == HistoryAfter(old(history), Rounds(ids, MAX_RETRIES + 1), turns, |r.attempts|)
        && ThreeRounds(r.attempts, ids)
        && (r.answer.None? && r.error != Some(Cancelled) ==> |r.attempts| == 3 * |ids|)
    {
      if request.None? { return Forwarded(None, "", [], Some(NoMessage)); }
      var ids := Snapshot(true);
      var attempts, won, rounds := AllRounds(ids, MAX_RETRIES, turns, cancelled);
      PlanIsThreeRounds(attempts, old(history), ids, turns);
      if won {
        r := Forwarded(turns(|attempts| - 1).answer, attempts[|attempts| - 1].id, attempts, None);
        Recorded(attempts, old(history), Rounds(ids, MAX_RETRIES + 1), turns);
      } else {
        r := Forwarded(None, "", attempts,
                       Some(if rounds <= MAX_RETRIES then Cancelled else if ids == [] then NoHealthyUpstreams
                         else ForwardFailed));
      }
    }

    /** Probes one upstream by id. */
    method Test(id: string, turn: Turn) returns (answer: Option<Msg>, error: Option<Error>)
      requires Valid()
      modifies this, repr
      ensures Valid() && fresh(repr - old(repr))
      ensures var known := exists u | u in Current(old(history)) :: u.id == id;
        && (!known ==> answer.None? && error == Some(NotFound) && history == old(history))
        && (known ==> answer == turn.answer && (error.Some? <==> answer.None?)
                      && history == After(Extended(old(history), turn.meanwhile), if answer.Some? then Succeeded(id)
                        else Failed(id)))
    {
      HealthIsStreak(history);
      var found := false;
      for i := 0 to |clients|
        invariant found <==> exists j | 0 <= j < i :: clients[j].id == id
      {
        if clients[i].id == id { found := true; break; }
      }
      assert found <==> exists j | 0 <= j < |clients| :: Current(history)[j].id == id;
      if !found { return None, Some(NotFound); }
      Interfere(turn.meanwhile);
      if turn.answer.None? {
        MarkFailure(id);
        return None, Some(ForwardFailed);
      }
      MarkSuccess(id);
      return turn.answer, None;
    }

    /** Probes each upstream out of service once; a failed probe changes nothing. */
    method ProbeUnhealthy(turns: nat -> Turn)
      requires Valid()
      modifies this, repr
      ensures Valid() && fresh(repr - old(repr))
      ensures var ids := Ids(Run(old(history)), false);
        history == HistoryAfterProbes(old(history), ids, turns, |ids|)
    {
      var ids := Snapshot(false);
      for i := 0 to |ids|
        invariant Valid() && fresh(repr - old(repr))
        invariant history == HistoryAfterProbes(old(history), ids, turns, i)
      {
        Interfere(turns(i).meanwhile);
        if turns(i).answer.Some? { MarkSuccess(ids[i]); }
      }
    }
  }
}

/**
 * The UDP worker pool, its packet buffers and the TCP slots, as transition
 * systems over channel operations (internal/dns/workers.go and
 * internal/dns/server.go). A run is any interleaving of enabled steps.
 */
module WorkerPool {
  import opened Options

  // ----- readers, queue and workers

  /** A packet handler: its place in the order of acceptance and the buffer it reads. */
  datatype Job = Job(id: nat, buffer: nat)

  /** A UDP listener: between packets, reading into a buffer, inside Submit past its first check, or ended. */
  datatype Reader = Ready | Reading(buffer: nat) | Offering(buffer: nat) | Stopped

  datatype Worker = Idle | Busy(job: Job) | Left

  /**
   * `next` numbers the buffers ever allocated; `pool` is None once the server has dropped it.
   * `accepted` and `started` record the jobs Submit took and the workers ran.
   */
  datatype State = State(
    capacity: nat, queue: seq<Job>, readers: seq<Reader>, workers: seq<Worker>,
    done: bool, cancelled: bool, returned: bool,
    next: nat, pool: Option<multiset<nat>>, discarded: multiset<nat>,
    accepted: seq<Job>, started: seq<Job>)

  function Start(listeners: nat, n: int, queue: int): State {
    var workers := if n <= 0 then 1 else n;
    State(if queue <= 0 then workers * 4 else queue, [], seq(listeners, _ => Ready), seq(workers, _ => Idle),
          false, false, false, 0, Some(multiset{}), multiset{}, [], [])
  }

  datatype Event =
    | Reuse(r: nat, buffer: nat)      // getUDPBuffer takes a pooled buffer
    | Allocate(r: nat)                // ... or makes one
    | Evict(buffer: nat)              // the pool drops a buffer: collected, or too small when taken
    | ReadFails(r: nat)
    | Packet(r: nat)                  // a packet arrived; Submit saw done still open
    | PacketLate(r: nat)              // a packet arrived; Submit saw done closed
    | Enqueue(r: nat)                 // Submit's second select: the send
    | Refuse(r: nat)                  // ... or done closed, or the queue full
    | Take(w: nat)                    // a worker receives a job and calls it
    | Finish(w: nat)
    | Leave(w: nat)                   // a worker sees done or the context
    | Cancel
    | CloseDone
    | CloseReturns                    // Close has waited for every worker
    | DropPool

  predicate IsReader(s: State, r: nat) {
    r < |s.readers|
  }

  predicate IsWorker(s: State, w: nat) {
    w < |s.workers|
  }

  predicate AllLeft(s: State) {
    forall w | 0 <= w < |s.workers| :: s.workers[w].Left?
  }

  predicate Enabled(s: State, e: Event) {
    match e
    case Reuse(r, b) => IsReader(s, r) && s.readers[r].Ready? && s.pool.Some? && b in s.pool.value
    case Allocate(r) => IsReader(s, r) && s.readers[r].Ready?
    case Evict(b) => s.pool.Some? && b in s.pool.value
    case ReadFails(r) => IsReader(s, r) && s.readers[r].Reading?
    case Packet(r) => IsReader(s, r) && s.readers[r].Reading? && !s.done
    case PacketLate(r) => IsReader(s, r) && s.readers[r].Reading? && s.done
    case Enqueue(r) => IsReader(s, r) && s.readers[r].Offering? && |s.queue| < s.capacity
    case Refuse(r) => IsReader(s, r) && s.readers[r].Offering? && (s.done || |s.queue| >= s.capacity)
    case Take(w) => IsWorker(s, w) && s.workers[w].Idle? && s.queue != []
    case Finish(w) => IsWorker(s, w) && s.workers[w].Busy?
    case Leave(w) => IsWorker(s, w) && s.workers[w].Idle? && (s.done || s.cancelled)
    case Cancel => true
    case CloseDone => true
    case CloseReturns => s.done && AllLeft(s)
    case DropPool => s.returned
  }

  /** putUDPBuffer: back to the pool, or dropped when there is no pool. */
  function PutBuffer(s: State, buffer: nat): State {
    match s.pool
    case Some(pool) => s.(pool := Some(pool + multiset{buffer}))
    case None => s.(discarded := s.discarded + multiset{buffer})
  }

  function SetReader(s: State, r: nat, to_: Reader): State
    requires IsReader(s, r)
  {
    s.(readers := s.readers[r := to_])
  }

  function SetWorker(s: State, w: nat, to_: Worker): State
    requires IsWorker(s, w)
  {
    s.(workers := s.workers[w := to_])
  }

  function Apply(s: State, e: Event): State
    requires Enabled(s, e)
  {
    match e
    case Reuse(r, b) => SetReader(s.(pool := Some(s.pool.value - multiset{b})), r, Reading(b))
    case Allocate(r) => SetReader(s.(next := s.next + 1), r, Reading(s.next))
    case Evict(b) => s.(pool := Some(s.pool.value - multiset{b}), discarded := s.discarded + multiset{b})
    case ReadFails(r) => PutBuffer(SetReader(s, r, Stopped), s.readers[r].buffer)
    case Packet(r) => SetReader(s, r, Offering(s.readers[r].buffer))
    case PacketLate(r) => PutBuffer(SetReader(s, r, Ready), s.readers[r].buffer)
    case Enqueue(r) =>
      var job := Job(|s.accepted|, s.readers[r].buffer);
      SetReader(s.(queue := s.queue + [job], accepted := s.accepted + [job]), r, Ready)
    case Refuse(r) => PutBuffer(SetReader(s, r, Ready), s.readers[r].buffer)
    case Take(w) => SetWorker(s.(queue := s.queue[1..], started := s.started + [s.queue[0]]), w, Busy(s.queue[0]))
    case Finish(w) => PutBuffer(SetWorker(s, w, Idle), s.workers[w].job.buffer)
    case Leave(w) => SetWorker(s, w, Left)
    case Cancel => s.(cancelled := true)
    case CloseDone => s.(done := true)
    case CloseReturns => s.(returned := true)
    case DropPool =>
      match s.pool
      case Some(pool) => s.(pool := None, discarded := s.discarded + pool)
      case None => s
  }

  /** An interleaving, the last step outermost. */
  datatype Trace<E> = Begin | Then(before: Trace<E>, event: E)

  /** Every step was enabled when it was taken. */
  predicate CanRun(s: State, trace: Trace<Event>)
    decreases trace, 0
  {
    trace.Then? ==> CanRun(s, trace.before) && Enabled(Run(s, trace.before), trace.event)
  }

  function Run(s: State, trace: Trace<Event>): State
    requires CanRun(s, trace)
    decreases trace, 1
  {
    match trace
    case Begin => s
    case Then(before, e) => Apply(Run(s, before), e)
  }

  // ----- who owns a buffer

  /** How many of the holders hold buffer `b`. */
  function Held<H>(holders: seq<H>, bufferOf: H -> Option<nat>, b: nat): nat {
    if holders == [] then 0
    else Held(holders[1..], bufferOf, b) + One(bufferOf(holders[0]), b)
  }

  function One(held: Option<nat>, b: nat): nat {
    if held == Some(b) then 1 else 0
  }

  lemma {:induction false} HeldUpdate<H>(holders: seq<H>, i: nat, h: H, bufferOf: H -> Option<nat>, b: nat)
    requires i < |holders|
    ensures Held(holders[i := h], bufferOf, b) + One(bufferOf(holders[i]), b)
      == Held(holders, bufferOf, b) + One(bufferOf(h), b)
  {
    if i == 0 {
      assert holders[i := h][1..] == holders[1..];
    } else {
      HeldUpdate(holders[1..], i - 1, h, bufferOf, b);
      assert holders[i := h][1..] == holders[1..][i - 1 := h];
    }
  }

  lemma {:induction false} HeldAppend<H>(holders: seq<H>, h: H, bufferOf: H -> Option<nat>, b: nat)
    ensures Held(holders + [h], bufferOf, b) == Held(holders, bufferOf, b) + One(bufferOf(h), b)
  {
    if holders != [] {
      HeldAppend(holders[1..], h, bufferOf, b);
      assert (holders + [h])[1..] == holders[1..] + [h];
    }
  }

  /** Two holders of one buffer count twice. */
  lemma {:induction false} HeldTwice<H>(holders: seq<H>, i: nat, j: nat, b: nat, bufferOf: H -> Option<nat>)
    requires i <= j < |holders| && bufferOf(holders[i]) == bufferOf(holders[j]) == Some(b)
    ensures Held(holders, bufferOf, b) >= if i < j then 2 else 1
  {
    if i > 0 { HeldTwice(holders[1..], i - 1, j - 1, b, bufferOf); }
    else if j > 0 { HeldTwice(holders[1..], j - 1, j - 1, b, bufferOf); }
  }

  lemma {:induction false} HeldBySome<H>(holders: seq<H>, b: nat, bufferOf: H -> Option<nat>) returns (i: nat)
    requires Held(holders, bufferOf, b) > 0
    ensures i < |holders| && bufferOf(holders[i]) == Some(b)
  {
    if bufferOf(holders[0]) == Some(b) { return 0; }
    var j := HeldBySome(holders[1..], b, bufferOf);
    return j + 1;
  }

  function ReaderBuffer(r: Reader): Option<nat> {
    match r
    case Reading(b) => Some(b)
    case Offering(b) => Some(b)
    case Ready => None
    case Stopped => None
  }

  function JobBuffer(j: Job): Option<nat> { Some(j.buffer) }

  function WorkerBuffer(w: Worker): Option<nat> {
    if w.Busy? then Some(w.job.buffer) else None
  }

  function Pooled(s: State): multiset<nat> {
    match s.pool case Some(pool) => pool case None => multiset{}
  }

  /** In how many places buffer `b` is. */
  function Owners(s: State, b: nat): nat {
    Pooled(s)[b] + s.discarded[b]
    + Held(s.readers, ReaderBuffer, b) + Held(s.queue, JobBuffer, b) + Held(s.workers, WorkerBuffer, b)
  }

  /** Each buffer ever allocated has exactly one owner, and nothing else is a buffer. */
  ghost predicate OneOwner(s: State) {
    forall b: nat :: Owners(s, b) == if b < s.next then 1 else 0
  }

  /** Jobs start in the order they were accepted, and those not started are queued. */
  ghost predicate Fifo(s: State) {
    && s.accepted == s.started + s.queue
    && |s.queue| <= s.capacity
    && forall i | 0 <= i < |s.accepted| :: s.accepted[i].id == i
  }

  ghost predicate Inv(s: State) {
    && OneOwner(s) && Fifo(s)
    && (s.returned ==> s.done && AllLeft(s))
    && (s.pool.None? ==> s.returned)
  }

  lemma PutBufferOwners(s: State, buffer: nat, b: nat)
    ensures Owners(PutBuffer(s, buffer), b) == Owners(s, b) + One(Some(buffer), b)
  {
    var t := PutBuffer(s, buffer);
    assert t.readers == s.readers && t.queue == s.queue && t.workers == s.workers;
    assert Pooled(t)[b] + t.discarded[b] == Pooled(s)[b] + s.discarded[b] + One(Some(buffer), b);
  }

  lemma SetReaderOwners(s: State, r: nat, reader: Reader, b: nat)
    requires IsReader(s, r)
    ensures Owners(SetReader(s, r, reader), b) + One(ReaderBuffer(s.readers[r]), b)
      == Owners(s, b) + One(ReaderBuffer(reader), b)
  {
    HeldUpdate(s.readers, r, reader, ReaderBuffer, b);
  }

  lemma SetWorkerOwners(s: State, w: nat, worker: Worker, b: nat)
    requires IsWorker(s, w)
    ensures Owners(SetWorker(s, w, worker), b) + One(WorkerBuffer(s.workers[w]), b)
      == Owners(s, b) + One(WorkerBuffer(worker), b)
  {
    HeldUpdate(s.workers, w, worker, WorkerBuffer, b);
  }

  lemma ReaderPuts(s: State, r: nat, reader: Reader, b: nat)
    requires IsReader(s, r) && ReaderBuffer(s.readers[r]).Some? && ReaderBuffer(reader).None?
    ensures Owners(PutBuffer(SetReader(s, r, reader), s.readers[r].buffer), b) == Owners(s, b)
  {
    SetReaderOwners(s, r, reader, b);
    PutBufferOwners(SetReader(s, r, reader), s.readers[r].buffer, b);
  }

  /** Only Allocate makes a buffer; every other step hands buffers from one owner to another. */
  lemma StepMovesBuffers(s: State, e: Event, b: nat)
    requires Enabled(s, e)
    ensures Owners(Apply(s, e), b) == Owners(s, b) + if e.Allocate? then One(Some(s.next), b) else 0
  {
    match e
    case Reuse(r, buffer) => ReuseMoves(s, r, buffer, b);
    case Allocate(r) => SetReaderOwners(s.(next := s.next + 1), r, Reading(s.next), b);
    case ReadFails(r) => ReaderPuts(s, r, Stopped, b);
    case Packet(r) => SetReaderOwners(s, r, Offering(s.readers[r].buffer), b);
    case PacketLate(r) => ReaderPuts(s, r, Ready, b);
    case Enqueue(r) => EnqueueMoves(s, r, b);
    case Refuse(r) => ReaderPuts(s, r, Ready, b);
    case Take(w) => TakeMoves(s, w, b);
    case Finish(w) => FinishMoves(s, w, b);
    case Leave(w) => SetWorkerOwners(s, w, Left, b);
    case Evict(buffer) => EvictMoves(s, buffer, b);
    case Cancel =>
    case CloseDone =>
    case CloseReturns =>
    case DropPool =>
  }

  lemma ReuseMoves(s: State, r: nat, buffer: nat, b: nat)
    requires Enabled(s, Reuse(r, buffer))
    ensures Owners(Apply(s, Reuse(r, buffer)), b) == Owners(s, b)
  {
    SetReaderOwners(s.(pool := Some(s.pool.value - multiset{buffer})), r, Reading(buffer), b);
  }

  lemma EvictMoves(s: State, buffer: nat, b: nat)
    requires Enabled(s, Evict(buffer))
    ensures Owners(Apply(s, Evict(buffer)), b) == Owners(s, b)
  {
  }

  lemma EnqueueMoves(s: State, r: nat, b: nat)
    requires Enabled(s, Enqueue(r))
    ensures Owners(Apply(s, Enqueue(r)), b) == Owners(s, b)
  {
    var job := Job(|s.accepted|, s.readers[r].buffer);
    HeldAppend(s.queue, job, JobBuffer, b);
    SetReaderOwners(s.(queue := s.queue + [job], accepted := s.accepted + [job]), r, Ready, b);
  }

  lemma TakeMoves(s: State, w: nat, b: nat)
    requires Enabled(s, Take(w))
    ensures Owners(Apply(s, Take(w)), b) == Owners(s, b)
  {
    SetWorkerOwners(s.(queue := s.queue[1..], started := s.started + [s.queue[0]]), w, Busy(s.queue[0]), b);
  }

  lemma FinishMoves(s: State, w: nat, b: nat)
    requires Enabled(s, Finish(w))
    ensures Owners(Apply(s, Finish(w)), b) == Owners(s, b)
  {
    SetWorkerOwners(s, w, Idle, b);
    PutBufferOwners(SetWorker(s, w, Idle), s.workers[w].job.buffer, b);
  }

  lemma StepKeepsOwners(s: State, e: Event)
    requires OneOwner(s) && Enabled(s, e)
    ensures OneOwner(Apply(s, e))
  {
    forall b: nat ensures Owners(Apply(s, e), b) == if b < Apply(s, e).next then 1 else 0 {
      StepMovesBuffers(s, e, b);
    }
  }

  lemma StepKeepsInv(s: State, e: Event)
    requires Inv(s) && Enabled(s, e)
    ensures Inv(Apply(s, e))
  {
    StepKeepsOwners(s, e);
  }

  lemma {:induction false} HeldNothing<H>(holders: seq<H>, bufferOf: H -> Option<nat>, b: nat)
    requires forall i | 0 <= i < |holders| :: bufferOf(holders[i]).None?
    ensures Held(holders, bufferOf, b) == 0
  {
    if holders != [] { HeldNothing(holders[1..], bufferOf, b); }
  }

  lemma StartInv(listeners: nat, n: int, queue: int)
    ensures Inv(Start(listeners, n, queue)) && Start(listeners, n, queue).workers != []
      && Start(listeners, n, queue).capacity > 0
  {
    var s := Start(listeners, n, queue);
    forall b: nat ensures Owners(s, b) == 0 {
      HeldNothing(s.readers, ReaderBuffer, b);
      HeldNothing(s.workers, WorkerBuffer, b);
    }
  }

  /** In every interleaving, from the start and from any state reached. */
  lemma {:induction false} RunKeepsInv(s: State, trace: Trace<Event>)
    requires Inv(s) && CanRun(s, trace)
    ensures Inv(Run(s, trace))
  {
    if trace.Then? {
      RunKeepsInv(s, trace.before);
      StepKeepsInv(Run(s, trace.before), trace.event);
    }
  }

  /** No two readers, queued jobs or running jobs share a buffer, and none of them holds a pooled or dropped one. */
  lemma NoSharing(s: State, b: nat)
    requires OneOwner(s)
    ensures forall i, j | 0 <= i < j < |s.readers| ::
      !(ReaderBuffer(s.readers[i]) == ReaderBuffer(s.readers[j]) == Some(b))
    ensures forall i, j | 0 <= i < j < |s.workers| ::
      !(WorkerBuffer(s.workers[i]) == WorkerBuffer(s.workers[j]) == Some(b))
    ensures forall i, j | 0 <= i < j < |s.queue| :: !(s.queue[i].buffer == s.queue[j].buffer == b)
    ensures forall i, j | 0 <= i < |s.readers| && 0 <= j < |s.workers| ::
              !(ReaderBuffer(s.readers[i]) == WorkerBuffer(s.workers[j]) == Some(b))
    ensures forall i, j | 0 <= i < |s.readers| && 0 <= j < |s.queue| ::
              !(ReaderBuffer(s.readers[i]) == Some(b) && s.queue[j].buffer == b)
    ensures forall i, j | 0 <= i < |s.workers| && 0 <= j < |s.queue| ::
              !(WorkerBuffer(s.workers[i]) == Some(b) && s.queue[j].buffer == b)
    ensures b in Pooled(s) + s.discarded ==>
              && (forall i | 0 <= i < |s.readers| :: ReaderBuffer(s.readers[i]) != Some(b))
              && (forall i | 0 <= i < |s.workers| :: WorkerBuffer(s.workers[i]) != Some(b))
              && (forall i | 0 <= i < |s.queue| :: s.queue[i].buffer != b)
  {
    assert Owners(s, b) <= 1;
    forall i, j | 0 <= i <= j < |s.readers| && ReaderBuffer(s.readers[i]) == ReaderBuffer(s.readers[j]) == Some(b)
      ensures Held(s.readers, ReaderBuffer, b) >= if i < j then 2 else 1
    {
      HeldTwice(s.readers, i, j, b, ReaderBuffer);
    }
    forall i, j | 0 <= i <= j < |s.workers| && WorkerBuffer(s.workers[i]) == WorkerBuffer(s.workers[j]) == Some(b)
      ensures Held(s.workers, WorkerBuffer, b) >= if i < j then 2 else 1
    {
      HeldTwice(s.workers, i, j, b, WorkerBuffer);
    }
    forall i, j | 0 <= i <= j < |s.queue| && s.queue[i].buffer == s.queue[j].buffer == b
      ensures Held(s.queue, JobBuffer, b) >= if i < j then 2 else 1
    {
      HeldTwice(s.queue, i, j, b, JobBuffer);
    }
  }

  /**
   * Nothing is lost either: an allocated buffer is pooled, dropped, or held by some reader, queued job or
   * running job.
   */
  lemma SomeOwner(s: State, b: nat)
    requires OneOwner(s) && b < s.next
    ensures b in Pooled(s) || b in s.discarded
         || (exists i | 0 <= i < |s.readers| :: ReaderBuffer(s.readers[i]) == Some(b))
         || (exists i | 0 <= i < |s.queue| :: s.queue[i].buffer == b)
         || (exists i | 0 <= i < |s.workers| :: WorkerBuffer(s.workers[i]) == Some(b))
  {
    assert Owners(s, b) == 1;
    if Held(s.readers, ReaderBuffer, b) > 0 { var i := HeldBySome(s.readers, b, ReaderBuffer); }
    else if Held(s.queue, JobBuffer, b) > 0 { var i := HeldBySome(s.queue, b, JobBuffer); }
    else if Held(s.workers, WorkerBuffer, b) > 0 { var i := HeldBySome(s.workers, b, WorkerBuffer); }
  }

  // ----- jobs

  /** Each accepted job is started at most once, in order of acceptance, and only accepted jobs are. */
  lemma StartedAtMostOnce(s: State)
    requires Fifo(s)
    ensures s.started <= s.accepted
    ensures forall i, j | 0 <= i < j < |s.started| :: s.started[i] != s.started[j]
  {
    assert forall i | 0 <= i < |s.started| :: s.started[i] == s.accepted[i];
  }

  lemma NothingStarts(s: State, e: Event)
    requires s.returned && AllLeft(s) && Enabled(s, e)
    ensures Apply(s, e).returned && AllLeft(Apply(s, e)) && Apply(s, e).started == s.started
  {
  }

  /** Once Close has returned nothing runs and nothing ever starts again. */
  lemma {:induction false} NothingRunsAfterClose(s: State, trace: Trace<Event>)
    requires Inv(s) && s.returned && CanRun(s, trace)
    ensures Run(s, trace).returned && Run(s, trace).started == s.started && AllLeft(Run(s, trace))
  {
    if trace.Then? {
      NothingRunsAfterClose(s, trace.before);
      NothingStarts(Run(s, trace.before), trace.event);
    }
  }

  /** Submits that are past their first check. */
  function InFlight(readers: seq<Reader>): nat {
    if readers == [] then 0 else InFlight(readers[1..]) + if readers[0].Offering? then 1 else 0
  }

  lemma {:induction false} InFlightUpdate(readers: seq<Reader>, r: nat, reader: Reader)
    requires r < |readers|
    ensures InFlight(readers[r := reader]) + (if readers[r].Offering? then 1 else 0)
         == InFlight(readers) + if reader.Offering? then 1 else 0
  {
    if r == 0 {
      assert readers[r := reader][1..] == readers[1..];
    } else {
      InFlightUpdate(readers[1..], r - 1, reader);
      assert readers[r := reader][1..] == readers[1..][r - 1 := reader];
    }
  }

  lemma LateStep(s: State, e: Event)
    requires s.done && Enabled(s, e)
    ensures var t := Apply(s, e);
      && t.done && |s.accepted| <= |t.accepted|
      && |t.accepted| + InFlight(t.readers) <= |s.accepted| + InFlight(s.readers)
  {
    match e
    case Reuse(r, b) => InFlightUpdate(s.readers, r, Reading(b));
    case Allocate(r) => InFlightUpdate(s.readers, r, Reading(s.next));
    case ReadFails(r) => InFlightUpdate(s.readers, r, Stopped);
    case PacketLate(r) => InFlightUpdate(s.readers, r, Ready);
    case Enqueue(r) => InFlightUpdate(s.readers, r, Ready);
    case Refuse(r) => InFlightUpdate(s.readers, r, Ready);
    case _ =>
  }

  /** After done is closed, only submits already in flight can still be accepted. */
  lemma {:induction false} OnlyRacingSubmitsAccepted(s: State, trace: Trace<Event>)
    requires s.done && CanRun(s, trace)
    ensures Run(s, trace).done && |s.accepted| <= |Run(s, trace).accepted|
    ensures |Run(s, trace).accepted| + InFlight(Run(s, trace).readers) <= |s.accepted| + InFlight(s.readers)
  {
    if trace.Then? {
      OnlyRacingSubmitsAccepted(s, trace.before);
      LateStep(Run(s, trace.before), trace.event);
    }
  }

  lemma {:induction false} SomeoneOffers(readers: seq<Reader>) returns (r: nat)
    requires InFlight(readers) > 0
    ensures r < |readers| && readers[r].Offering?
  {
    if readers[0].Offering? { return 0; }
    var k := SomeoneOffers(readers[1..]);
    return k + 1;
  }

  lemma FullStep(s: State, e: Event)
    requires AllLeft(s) && |s.queue| >= s.capacity && Enabled(s, e)
    ensures var t := Apply(s, e);
      AllLeft(t) && |t.queue| >= t.capacity && t.accepted == s.accepted
  {
  }

  /** With every worker gone a full queue stays full, so nothing more is accepted. */
  lemma {:induction false} FullStaysFull(s: State, trace: Trace<Event>)
    requires AllLeft(s) && |s.queue| >= s.capacity && CanRun(s, trace)
    ensures var t := Run(s, trace);
      AllLeft(t) && |t.queue| >= t.capacity && t.accepted == s.accepted
  {
    if trace.Then? {
      FullStaysFull(s, trace.before);
      FullStep(Run(s, trace.before), trace.event);
    }
  }

  /** Some continuation accepts another job. */
  ghost predicate CanAccept(s: State) {
    exists trace: Trace<Event> :: CanRun(s, trace) && |Run(s, trace).accepted| > |s.accepted|
  }

  /**
   * After Close has returned, the pool can still accept a job exactly when a submit is past its
   * first check and the queue has room; by NothingRunsAfterClose such a job never runs.
   */
  lemma AcceptsAfterCloseIff(s: State)
    requires Inv(s) && s.returned
    ensures CanAccept(s) <==> InFlight(s.readers) > 0 && |s.queue| < s.capacity
  {
    if InFlight(s.readers) > 0 && |s.queue| < s.capacity {
      var r := SomeoneOffers(s.readers);
      var trace := Then(Begin, Enqueue(r));
      assert CanRun(s, Begin) && Run(s, Begin) == s;
      assert CanRun(s, trace) && |Run(s, trace).accepted| > |s.accepted|;
    } else {
      forall trace: Trace<Event> | CanRun(s, trace) ensures |Run(s, trace).accepted| <= |s.accepted| {
        OnlyRacingSubmitsAccepted(s, trace);
        if |s.queue| >= s.capacity { FullStaysFull(s, trace); }
      }
    }
  }

  // ----- the order in which the server closes

  predicate AllStopped(readers: seq<Reader>) {
    forall r | 0 <= r < |readers| :: readers[r].Stopped?
  }

  /** The server closes the pool only after it has waited for its listeners. */
  predicate InServerOrder(s: State, trace: Trace<Event>)
    requires CanRun(s, trace)
  {
    trace.Then? ==>
      && InServerOrder(s, trace.before)
      && (trace.event.CloseDone? ==> AllStopped(Run(s, trace.before).readers))
  }

  lemma StoppedStep(s: State, e: Event)
    requires AllStopped(s.readers) && Enabled(s, e)
    ensures AllStopped(Apply(s, e).readers) && Apply(s, e).accepted == s.accepted
  {
  }

  lemma DoneStep(s: State, e: Event)
    requires Enabled(s, e) && !e.CloseDone?
    ensures Apply(s, e).done == s.done
  {
  }

  /** In that order done is closed only once every listener has ended ... */
  lemma {:induction false} DoneMeansStopped(s: State, trace: Trace<Event>)
    requires CanRun(s, trace) && InServerOrder(s, trace) && !s.done
    ensures Run(s, trace).done ==> AllStopped(Run(s, trace).readers)
  {
    if trace.Then? {
      DoneMeansStopped(s, trace.before);
      var t := Run(s, trace.before);
      if !trace.event.CloseDone? { DoneStep(t, trace.event); }
      if AllStopped(t.readers) { StoppedStep(t, trace.event); }
    }
  }

  /** ... so nothing is accepted from then on, and the race belongs to the pool used on its own. */
  lemma {:induction false} ServerAcceptsNothingAfterDone(s: State, trace: Trace<Event>, later: Trace<Event>)
    requires CanRun(s, trace) && InServerOrder(s, trace) && !s.done && Run(s, trace).done
    requires CanRun(Run(s, trace), later)
    ensures Run(Run(s, trace), later).accepted == Run(s, trace).accepted
    ensures AllStopped(Run(Run(s, trace), later).readers)
  {
    if later.Begin? {
      DoneMeansStopped(s, trace);
    } else {
      ServerAcceptsNothingAfterDone(s, trace, later.before);
      StoppedStep(Run(Run(s, trace), later.before), later.event);
    }
  }

  /**
   * A run of the pool on its own reaches such a state: its last submit is accepted, and its job and buffer stay
   * queued for ever.
   */
  lemma AcceptedNeverRun(later: Trace<Event>)
    ensures CanRun(Start(1, 1, 1), Race())
    ensures var s := Run(Start(1, 1, 1), Race());
      s.accepted == [Job(0, 0)] && s.returned && (CanRun(s, later) ==> Run(s, later).started == [])
  {
    RaceEnds();
    StartInv(1, 1, 1);
    RunKeepsInv(Start(1, 1, 1), Race());
    var s := Run(Start(1, 1, 1), Race());
    if CanRun(s, later) { NothingRunsAfterClose(s, later); }
  }

  lemma RaceEnds()
    ensures CanRun(Start(1, 1, 1), Race())
    ensures var s := Run(Start(1, 1, 1), Race()); s.accepted == [Job(0, 0)] && s.returned && s.started == []
  {
    var s0, t := Start(1, 1, 1), Offered();
    assert Run(s0, Then(t, CloseDone)).done;
    var t4 := Then(Then(t, CloseDone), Leave(0));
    assert CanRun(s0, t4) && Run(s0, t4) == s0.(readers := [Offering(0)], next := 1, done := true, workers := [Left]);
  }

  function Offered(): Trace<Event> {
    Then(Then(Begin, Allocate(0)), Packet(0))
  }

  function Race(): Trace<Event> {
    Then(Then(Then(Then(Offered(), CloseDone), Leave(0)), CloseReturns), Enqueue(0))
  }

  // ----- TCP slots

  /** `slots` is the capacity of the slot channel and the tokens in it; None once the server has dropped it. */
  datatype Slots = Slots(capacity: nat, tokens: nat)
  datatype Tcp = Tcp(slots: Option<Slots>, accepting: nat, handlers: nat, refused: nat)

  datatype TcpEvent = Accept | HandlerEnds | ListenerEnds | DropSlots

  predicate TcpEnabled(t: Tcp, e: TcpEvent) {
    match e
    case Accept => t.accepting > 0
    case HandlerEnds => t.handlers > 0
    case ListenerEnds => t.accepting > 0
    case DropSlots => t.accepting == 0 && t.handlers == 0
  }

  /** acquireTCPSlot: a send that never waits. */
  function Acquire(slots: Option<Slots>): (Option<Slots>, bool) {
    match slots
    case None => (slots, true)
    case Some(s) => if s.tokens < s.capacity then (Some(s.(tokens := s.tokens + 1)), true) else (slots, false)
  }

  /** releaseTCPSlot: a receive that never waits. */
  function Release(slots: Option<Slots>): Option<Slots> {
    match slots
    case None => slots
    case Some(s) => if s.tokens > 0 then Some(s.(tokens := s.tokens - 1)) else slots
  }

  function TcpApply(t: Tcp, e: TcpEvent): Tcp
    requires TcpEnabled(t, e)
  {
    match e
    case Accept =>
      var (slots, ok) := Acquire(t.slots);
      if ok then t.(slots := slots, handlers := t.handlers + 1) else t.(refused := t.refused + 1)
    case HandlerEnds => t.(slots := Release(t.slots), handlers := t.handlers - 1)
    case ListenerEnds => t.(accepting := t.accepting - 1)
    case DropSlots => t.(slots := None)
  }

  predicate TcpCanRun(t: Tcp, trace: Trace<TcpEvent>)
    decreases trace, 0
  {
    trace.Then? ==> TcpCanRun(t, trace.before) && TcpEnabled(TcpRun(t, trace.before), trace.event)
  }

  function TcpRun(t: Tcp, trace: Trace<TcpEvent>): Tcp
    requires TcpCanRun(t, trace)
    decreases trace, 1
  {
    match trace
    case Begin => t
    case Then(before, e) => TcpApply(TcpRun(t, before), e)
  }

  /** Live handlers are exactly the tokens held, and never exceed the capacity. */
  predicate HandlersHoldTokens(t: Tcp, capacity: nat) {
    match t.slots
    case Some(s) => s.capacity == capacity && t.handlers == s.tokens <= capacity
    case None => t.handlers == 0 && t.accepting == 0
  }

  function Occurrences(trace: Trace<TcpEvent>, e: TcpEvent): nat {
    if trace.Begin? then 0 else Occurrences(trace.before, e) + if trace.event == e then 1 else 0
  }

  /** In every run; and every connection is handled to its end, live, or refused. */
  lemma {:induction false} TcpRunKeepsTokens(t: Tcp, trace: Trace<TcpEvent>, capacity: nat)
    requires HandlersHoldTokens(t, capacity) && TcpCanRun(t, trace)
    ensures HandlersHoldTokens(TcpRun(t, trace), capacity)
    ensures t.handlers + t.refused + Occurrences(trace, Accept)
         == TcpRun(t, trace).handlers + TcpRun(t, trace).refused + Occurrences(trace, HandlerEnds)
  {
    if trace.Then? { TcpRunKeepsTokens(t, trace.before, capacity); }
  }

  /** A connection is refused exactly when as many handlers as slots are live. */
  lemma RefusedIffFull(t: Tcp, capacity: nat)
    requires HandlersHoldTokens(t, capacity) && TcpEnabled(t, Accept)
    ensures TcpApply(t, Accept).refused == t.refused + (if t.handlers == capacity then 1 else 0)
    ensures TcpApply(t, Accept).handlers == t.handlers + (if t.handlers == capacity then 0 else 1)
  {
  }
}

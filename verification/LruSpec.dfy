/**
 The DNS response cache as a simple most-recent-first sequence, and what every run of it keeps.
 The imperative cache in DnsCache refines this module step by step.
 */
module LruSpec {
  import opened Options
  import opened DnsMessages

  datatype Key = Key(qname: string, qtype: nat, qclass: nat)
  datatype Entry = Entry(key: Key, wire: Msg, expires: int)
  datatype Limits = Limits(maxEntries: int, minTTL: int, maxTTL: int, negTTL: int)
  datatype State = State(limits: Limits, entries: seq<Entry>)

  /** The transaction id and question a hit is rewritten to. */
  datatype Rewrite = Rewrite(id: nat, question: seq<Question>)

  /** Defaults for omitted options: 100000 entries, 1 minute, 24 hours, 1 hour. */
  function WithDefaults(opts: Limits): Limits {
    Limits(
      if opts.maxEntries <= 0 then 100000 else opts.maxEntries,
      if opts.minTTL <= 0 then 60 * SECOND else opts.minTTL,
      if opts.maxTTL <= 0 then 86400 * SECOND else opts.maxTTL,
      if opts.negTTL <= 0 then 3600 * SECOND else opts.negTTL)
  }

  function MinTTL(answer: seq<RR>): (m: nat)
    requires answer != []
    ensures forall i | 0 <= i < |answer| :: m <= answer[i].ttl
    ensures exists i | 0 <= i < |answer| :: m == answer[i].ttl
  {
    if |answer| == 1 then answer[0].ttl
    else
      var rest := MinTTL(answer[..|answer| - 1]);
      var last := answer[|answer| - 1].ttl;
      if last < rest then last
      else
        var init := answer[..|answer| - 1];
        assert exists i | 0 <= i < |init| :: rest == init[i].ttl && init[i] == answer[i];
        rest
  }

  function Clamp(ttl: int, low: int, high: int): int {
    var raised := if ttl < low then low else ttl;
    if raised > high then high else raised
  }

  /** How long a response may be kept; zero for one that may not. */
  function EffectiveTTL(limits: Limits, msg: Msg): int {
    if Negative(msg) then limits.negTTL
    else if msg.rcode != RCODE_SUCCESS then 0
    else Clamp(MinTTL(msg.answer) * SECOND, limits.minTTL, limits.maxTTL)
  }

  function Find(entries: seq<Entry>, key: Key): (i: nat)
    ensures i <= |entries|
    ensures forall j | 0 <= j < i :: entries[j].key != key
    ensures i < |entries| ==> entries[i].key == key
  {
    if entries == [] || entries[0].key == key then 0
    else 1 + Find(entries[1..], key)
  }

  predicate Holds(entries: seq<Entry>, key: Key) { Find(entries, key) < |entries| }

  function RemoveAt<T>(s: seq<T>, i: nat): (r: seq<T>)
    ensures |r| == if i < |s| then |s| - 1 else |s|
  {
    if i < |s| then s[..i] + s[i + 1..] else s
  }

  function Without(entries: seq<Entry>, key: Key): seq<Entry> {
    RemoveAt(entries, Find(entries, key))
  }

  function Take<T>(s: seq<T>, n: int): seq<T> {
    if n < 0 then [] else if |s| <= n then s else s[..n]
  }

  /** Whole seconds left, at least one, as a 32-bit count. */
  function Remaining(expires: int, now: int): int {
    var secs := ((expires - now) / SECOND) % TWO_TO_THE_32;
    if secs == 0 then 1 else secs
  }

  function CapRecord(rr: RR, ttl: int): RR {
    if rr.rrtype == TYPE_OPT || rr.ttl <= ttl || ttl < 0 then rr else rr.(ttl := ttl)
  }

  function CapTTLs(records: seq<RR>, ttl: int): (r: seq<RR>)
    ensures |r| == |records|
    ensures forall i | 0 <= i < |r| :: r[i] == CapRecord(records[i], ttl)
  {
    seq(|records|, i requires 0 <= i < |records| => CapRecord(records[i], ttl))
  }

  function Rewritten(wire: Msg, req: Option<Rewrite>, ttl: int): Msg {
    var named := if req.Some? then wire.(id := req.value.id, question := req.value.question) else wire;
    named.(answer := CapTTLs(named.answer, ttl), ns := CapTTLs(named.ns, ttl), extra := CapTTLs(named.extra, ttl))
  }

  predicate Stores(s: State, msg: Msg, packs: bool) {
    s.limits.maxEntries > 0 && EffectiveTTL(s.limits, msg) > 0 && packs
  }

  function Put(s: State, key: Key, msg: Msg, packs: bool, now: int): State {
    if Stores(s, msg, packs) then
      var entry := Entry(key, msg, now + EffectiveTTL(s.limits, msg));
      s.(entries := Take([entry] + Without(s.entries, key), s.limits.maxEntries))
    else s
  }

  /** A lookup hits when the entry is there, is unexpired and unpacks. */
  predicate Hits(s: State, key: Key, unpacks: bool, now: int) {
    var i := Find(s.entries, key);
    i < |s.entries| && s.entries[i].expires > now && unpacks
  }

  function Get(s: State, key: Key, unpacks: bool, now: int): State {
    var i := Find(s.entries, key);
    if Hits(s, key, unpacks, now) then
      s.(entries := [s.entries[i]] + RemoveAt(s.entries, i))
    else s.(entries := RemoveAt(s.entries, i))
  }

  function Reply(s: State, key: Key, req: Option<Rewrite>, unpacks: bool, now: int): Option<Msg> {
    if Hits(s, key, unpacks, now) then
      var e := s.entries[Find(s.entries, key)];
      Some(Rewritten(e.wire, req, Remaining(e.expires, now)))
    else None
  }

  function Flush(s: State): State { s.(entries := []) }

  function Reconfigure(s: State, opts: Limits): State {
    State(WithDefaults(opts), Take(s.entries, WithDefaults(opts).maxEntries))
  }

  datatype Event =
    | PutEvent(key: Key, msg: Msg, packs: bool, now: int)
    | GetEvent(key: Key, req: Option<Rewrite>, unpacks: bool, now: int)
    | FlushEvent
    | ReconfigureEvent(opts: Limits)

  function Step(s: State, e: Event): State {
    match e
    case PutEvent(key, msg, packs, now) => Put(s, key, msg, packs, now)
    case GetEvent(key, _, unpacks, now) => Get(s, key, unpacks, now)
    case FlushEvent => Flush(s)
    case ReconfigureEvent(opts) => Reconfigure(s, opts)
  }

  function Fresh(opts: Limits): State { State(WithDefaults(opts), []) }

  function Run(opts: Limits, es: seq<Event>): State {
    if es == [] then Fresh(opts)
    else Step(Run(opts, es[..|es| - 1]), es[|es| - 1])
  }

  // ----- every step puts at most one entry in front, drops at most one, and cuts the tail

  /** The entry a step moves or inserts at the front, if any. */
  function Front(s: State, e: Event): (f: seq<Entry>)
    ensures |f| <= 1
  {
    match e
    case PutEvent(key, msg, packs, now) =>
      if Stores(s, msg, packs) then [Entry(key, msg, now + EffectiveTTL(s.limits, msg))] else []
    case GetEvent(key, _, unpacks, now) =>
      if Hits(s, key, unpacks, now) then [s.entries[Find(s.entries, key)]] else []
    case _ => []
  }

  /** The index a step takes out of the sequence; its length when there is none. */
  function Gone(s: State, e: Event): nat {
    match e
    case PutEvent(key, msg, packs, _) => if Stores(s, msg, packs) then Find(s.entries, key) else |s.entries|
    case GetEvent(key, _, _, _) => Find(s.entries, key)
    case _ => |s.entries|
  }

  function Cut(s: State, e: Event): nat {
    if e.FlushEvent? then 0
    else if e.ReconfigureEvent? then WithDefaults(e.opts).maxEntries
    else if s.limits.maxEntries < 0 then 0 else s.limits.maxEntries
  }

  function Shift(front: seq<Entry>, prior: seq<Entry>, gone: nat, cut: nat): seq<Entry> {
    Take(front + RemoveAt(prior, gone), cut)
  }

  /** Where entry `j` of a shifted sequence was before. */
  function Origin(front: seq<Entry>, gone: nat, j: int): int {
    if j - |front| < gone then j - |front| else j - |front| + 1
  }

  lemma ShiftAt(front: seq<Entry>, prior: seq<Entry>, gone: nat, cut: nat, j: int)
    requires 0 <= j < |Shift(front, prior, gone, cut)| && gone <= |prior|
    ensures j < |front| ==> Shift(front, prior, gone, cut)[j] == front[j]
    ensures j >= |front| ==>
      && 0 <= Origin(front, gone, j) < |prior|
      && Origin(front, gone, j) != gone
      && Shift(front, prior, gone, cut)[j] == prior[Origin(front, gone, j)]
  {
  }

  lemma StepIsShift(s: State, e: Event)
    requires Inv(s)
    ensures Step(s, e).entries == Shift(Front(s, e), s.entries, Gone(s, e), Cut(s, e))
    ensures Gone(s, e) <= |s.entries|
  {
  }

  /** The entry in front has the touched key, and the old entry with that key is the one taken out. */
  lemma FrontIsTouched(s: State, e: Event)
    requires Inv(s)
    ensures Touched(s, e) == if Front(s, e) == [] then None else Some(Front(s, e)[0].key)
    ensures Front(s, e) != [] ==>
      forall i | 0 <= i < |s.entries| && i != Gone(s, e) :: s.entries[i].key != Front(s, e)[0].key
  {
  }

  // ----- unique keys and the size bound

  ghost predicate UniqueKeys(entries: seq<Entry>) {
    forall i, j | 0 <= i < j < |entries| :: entries[i].key != entries[j].key
  }

  ghost predicate Inv(s: State) {
    && UniqueKeys(s.entries)
    && |s.entries| <= s.limits.maxEntries
    && s.limits == WithDefaults(s.limits)
  }

  lemma StepKeepsInv(s: State, e: Event)
    requires Inv(s)
    ensures Inv(Step(s, e))
  {
    var front, gone, cut := Front(s, e), Gone(s, e), Cut(s, e);
    StepIsShift(s, e);
    FrontIsTouched(s, e);
    ShiftKeepsUnique(front, s.entries, gone, cut);
  }

  lemma ShiftKeepsUnique(front: seq<Entry>, prior: seq<Entry>, gone: nat, cut: nat)
    requires UniqueKeys(prior) && gone <= |prior| && |front| <= 1
    requires front != [] ==> forall i | 0 <= i < |prior| && i != gone :: prior[i].key != front[0].key
    ensures UniqueKeys(Shift(front, prior, gone, cut))
  {
    var next := Shift(front, prior, gone, cut);
    forall i, j | 0 <= i < j < |next| ensures next[i].key != next[j].key {
      ShiftAt(front, prior, gone, cut, i);
      ShiftAt(front, prior, gone, cut, j);
    }
  }

  lemma {:induction false} RunKeepsInv(opts: Limits, es: seq<Event>)
    ensures Inv(Run(opts, es))
  {
    if es != [] {
      RunKeepsInv(opts, es[..|es| - 1]);
      StepKeepsInv(Run(opts, es[..|es| - 1]), es[|es| - 1]);
    }
  }

  // ----- recency: the order of the sequence is the order of the last touches

  /** The key a step puts or hits, if any. */
  function Touched(s: State, e: Event): Option<Key> {
    match e
    case PutEvent(key, msg, packs, _) => if Stores(s, msg, packs) then Some(key) else None
    case GetEvent(key, _, unpacks, now) => if Hits(s, key, unpacks, now) then Some(key) else None
    case _ => None
  }

  /** What each step of a run touched, oldest first. */
  function Log(opts: Limits, es: seq<Event>): (log: seq<Option<Key>>)
    ensures |log| == |es|
  {
    if es == [] then []
    else
      var before := es[..|es| - 1];
      Log(opts, before) + [Touched(Run(opts, before), es[|es| - 1])]
  }

  /** Index of the last touch of `key`, or -1. */
  function LastTouch(log: seq<Option<Key>>, key: Key): (i: int)
    ensures -1 <= i < |log|
    ensures i >= 0 ==> log[i] == Some(key)
    ensures forall j | i < j < |log| :: log[j] != Some(key)
  {
    if log == [] then -1
    else if log[|log| - 1] == Some(key) then |log| - 1
    else LastTouch(log[..|log| - 1], key)
  }

  ghost predicate RecencyOrdered(log: seq<Option<Key>>, entries: seq<Entry>) {
    && (forall i | 0 <= i < |entries| :: LastTouch(log, entries[i].key) >= 0)
    && (forall i, j | 0 <= i < j < |entries| ::
          LastTouch(log, entries[j].key) < LastTouch(log, entries[i].key))
  }

  /** Last touch of entry `i` of a shifted sequence. */
  lemma TouchAfterShift(front: seq<Entry>, prior: seq<Entry>, gone: nat, cut: nat, log: seq<Option<Key>>, i: int)
    requires gone <= |prior| && |front| == 1 && 0 <= i < |Shift(front, prior, gone, cut)|
    requires forall k | 0 <= k < |prior| && k != gone :: prior[k].key != front[0].key
    ensures i > 0 ==> 0 <= Origin(front, gone, i) < |prior|
    ensures LastTouch(log + [Some(front[0].key)], Shift(front, prior, gone, cut)[i].key)
         == if i == 0 then |log| else LastTouch(log, prior[Origin(front, gone, i)].key)
  {
    ShiftAt(front, prior, gone, cut, i);
  }

  lemma PushKeepsRecency(front: seq<Entry>, prior: seq<Entry>, gone: nat, cut: nat, log: seq<Option<Key>>)
    requires RecencyOrdered(log, prior) && gone <= |prior| && |front| == 1
    requires forall i | 0 <= i < |prior| && i != gone :: prior[i].key != front[0].key
    ensures RecencyOrdered(log + [Some(front[0].key)], Shift(front, prior, gone, cut))
  {
    var log', next := log + [Some(front[0].key)], Shift(front, prior, gone, cut);
    forall i | 0 <= i < |next| ensures LastTouch(log', next[i].key) >= 0 {
      TouchAfterShift(front, prior, gone, cut, log, i);
    }
    forall i, j | 0 <= i < j < |next| ensures LastTouch(log', next[j].key) < LastTouch(log', next[i].key) {
      TouchAfterShift(front, prior, gone, cut, log, i);
      TouchAfterShift(front, prior, gone, cut, log, j);
    }
  }

  lemma DropKeepsRecency(prior: seq<Entry>, gone: nat, cut: nat, log: seq<Option<Key>>)
    requires RecencyOrdered(log, prior) && gone <= |prior|
    ensures RecencyOrdered(log + [None], Shift([], prior, gone, cut))
  {
    var next := Shift([], prior, gone, cut);
    forall i | 0 <= i < |next|
      ensures 0 <= Origin([], gone, i) < |prior|
      ensures LastTouch(log + [None], next[i].key) == LastTouch(log, prior[Origin([], gone, i)].key)
    {
      ShiftAt([], prior, gone, cut, i);
    }
  }

  lemma StepKeepsRecency(s: State, e: Event, log: seq<Option<Key>>)
    requires Inv(s) && RecencyOrdered(log, s.entries)
    ensures RecencyOrdered(log + [Touched(s, e)], Step(s, e).entries)
  {
    StepIsShift(s, e);
    FrontIsTouched(s, e);
    if Front(s, e) == [] {
      DropKeepsRecency(s.entries, Gone(s, e), Cut(s, e), log);
    } else {
      PushKeepsRecency(Front(s, e), s.entries, Gone(s, e), Cut(s, e), log);
    }
  }

  /** Every run keeps its entries in the order of their last put or hit, most recent first. */
  lemma {:induction false} RunKeepsRecency(opts: Limits, es: seq<Event>)
    ensures RecencyOrdered(Log(opts, es), Run(opts, es).entries)
  {
    if es != [] {
      var before := es[..|es| - 1];
      RunKeepsRecency(opts, before);
      RunKeepsInv(opts, before);
      StepKeepsRecency(Run(opts, before), es[|es| - 1], Log(opts, before));
    }
  }

  /**
   * Whatever a put or a new limit evicts was touched before everything it keeps, and it evicts no more than it
   * must.
   */
  lemma VictimIsLeastRecent(opts: Limits, es: seq<Event>, e: Event, victim: Key, kept: Key)
    requires e.PutEvent? || e.ReconfigureEvent?
    requires Holds(Run(opts, es).entries, victim) && !Holds(Run(opts, es + [e]).entries, victim)
    requires Holds(Run(opts, es + [e]).entries, kept)
    ensures LastTouch(Log(opts, es + [e]), victim) < LastTouch(Log(opts, es + [e]), kept)
    ensures |Run(opts, es + [e]).entries| == Run(opts, es + [e]).limits.maxEntries
  {
    var es' := es + [e];
    assert es'[..|es'| - 1] == es;
    var s := Run(opts, es);
    RunKeepsInv(opts, es);
    RunKeepsRecency(opts, es);
    FrontIsTouched(s, e);
    EvictedBehindKept(s, e, victim, kept);
  }

  lemma EvictedBehindKept(s: State, e: Event, victim: Key, kept: Key)
    requires Inv(s) && (e.PutEvent? || e.ReconfigureEvent?)
    requires Holds(s.entries, victim) && !Holds(Step(s, e).entries, victim)
    requires Holds(Step(s, e).entries, kept)
    ensures Touched(s, e) != Some(victim)
    ensures |Step(s, e).entries| == Step(s, e).limits.maxEntries
    ensures Touched(s, e) == Some(kept) || Find(s.entries, kept) < Find(s.entries, victim)
  {
    var front, gone, cut := Front(s, e), Gone(s, e), Cut(s, e);
    StepIsShift(s, e);
    FrontIsTouched(s, e);
    var all, new' := front + RemoveAt(s.entries, gone), Step(s, e).entries;
    var iv, jk := Find(s.entries, victim), Find(new', kept);
    ShiftAt(front, s.entries, gone, cut, jk);
    assert iv != gone by { assert new'[0] == all[0]; }
    var jv := |front| + if iv < gone then iv else iv - 1;
    assert all[jv] == s.entries[iv];
    assert jv >= cut;
  }

  /** A response that is neither positive data nor a negative answer never changes the cache. */
  lemma UncacheableNeverStored(s: State, key: Key, msg: Msg, packs: bool, now: int)
    requires Inv(s)
    ensures Put(s, key, msg, packs, now) == s <== !Cacheable(msg)
    ensures Stores(s, msg, packs) <==> Cacheable(msg) && packs
  {
  }

  // ----- how long answers are kept

  /** Record `i` has the smallest TTL. */
  predicate SmallestAt(answer: seq<RR>, i: nat) {
    i < |answer| && forall k | 0 <= k < |answer| :: answer[i].ttl <= answer[k].ttl
  }

  /** A TTL brought within the limits; where they contradict each other the upper one wins. */
  predicate Within(limits: Limits, own: int, ttl: int) {
    if own > limits.maxTTL || limits.minTTL > limits.maxTTL then ttl == limits.maxTTL
    else if own < limits.minTTL then ttl == limits.minTTL
    else ttl == own
  }

  /** NXDOMAIN and NODATA last the negative TTL, data its smallest TTL within the limits. */
  ghost predicate Lasts(limits: Limits, msg: Msg, ttl: int) {
    && (msg.rcode == RCODE_NAME_ERROR || (msg.rcode == RCODE_SUCCESS && msg.answer == []) ==> ttl == limits.negTTL)
    && (msg.rcode == RCODE_SUCCESS && msg.answer != [] ==>
          exists i: nat :: SmallestAt(msg.answer, i) && Within(limits, msg.answer[i].ttl * SECOND, ttl))
  }

  lemma EffectiveLasts(limits: Limits, msg: Msg)
    ensures Lasts(limits, msg, EffectiveTTL(limits, msg))
  {
    if msg.rcode == RCODE_SUCCESS && msg.answer != [] {
      var m := MinTTL(msg.answer);
      var i :| 0 <= i < |msg.answer| && m == msg.answer[i].ttl;
      assert SmallestAt(msg.answer, i);
    }
  }

  /** Options left out or negative give 100000 entries, a minute, a day and an hour; others stand. */
  lemma DefaultLimits(opts: Limits)
    ensures var limits := Fresh(opts).limits;
      && limits.maxEntries == (if opts.maxEntries > 0 then opts.maxEntries else 100_000)
      && limits.minTTL == (if opts.minTTL > 0 then opts.minTTL else 60_000_000_000)
      && limits.maxTTL == (if opts.maxTTL > 0 then opts.maxTTL else 86_400_000_000_000)
      && limits.negTTL == (if opts.negTTL > 0 then opts.negTTL else 3_600_000_000_000)
      && Reconfigure(Fresh(opts), opts).limits == limits
  {
  }

  /** The answer is in front, and expires as long after its put as it lasts. */
  ghost predicate InFront(s: State, key: Key, msg: Msg, now: int) {
    && s.entries != [] && s.entries[0].key == key && s.entries[0].wire == msg
    && Lasts(s.limits, msg, s.entries[0].expires - now)
  }

  lemma PutIsStored(s: State, key: Key, msg: Msg, packs: bool, now: int)
    requires Inv(s)
    ensures if Cacheable(msg) && packs then InFront(Put(s, key, msg, packs, now), key, msg, now)
            else Put(s, key, msg, packs, now) == s
  {
    EffectiveLasts(s.limits, msg);
  }

  /** A lookup hits exactly when an entry of the key is there that has not expired, and unpacks. */
  lemma LiveEntryHits(s: State, key: Key, req: Option<Rewrite>, unpacks: bool, now: int)
    requires Inv(s)
    ensures Reply(s, key, req, unpacks, now).Some?
       <==> unpacks && exists i :: 0 <= i < |s.entries| && s.entries[i].key == key && now < s.entries[i].expires
  {
    var i := Find(s.entries, key);
    if i < |s.entries| { assert forall j | 0 <= j < |s.entries| && s.entries[j].key == key :: j == i; }
  }

  /**
   * An entry leaves by a lookup that finds it expired or broken, by an answer stored over it, by a flush, or to make
   * room in a cache that is full afterwards.
   */
  lemma LeavesOnlyBy(s: State, e: Event, i: nat)
    requires Inv(s) && i < |s.entries| && s.entries[i] !in Step(s, e).entries
    ensures match e
      case GetEvent(key, _, unpacks, now) => key == s.entries[i].key && !(unpacks && now < s.entries[i].expires)
      case PutEvent(key, msg, packs, _) =>
        Cacheable(msg) && packs && (key == s.entries[i].key || |Step(s, e).entries| == s.limits.maxEntries)
      case FlushEvent => true
      case ReconfigureEvent(opts) => |Step(s, e).entries| == Fresh(opts).limits.maxEntries
  {
    match e
    case GetEvent(key, _, _, _) =>
      if i != Find(s.entries, key) { RemoveKeeps(s.entries, Find(s.entries, key), i); }
    case PutEvent(key, _, _, _) =>
      if i != Find(s.entries, key) { RemoveKeeps(s.entries, Find(s.entries, key), i); }
    case _ =>
  }

  lemma RemoveKeeps<T>(s: seq<T>, gone: nat, i: nat)
    requires i < |s| && i != gone
    ensures s[i] in RemoveAt(s, gone)
  {
    if i < gone { assert RemoveAt(s, gone)[i] == s[i]; } else { assert RemoveAt(s, gone)[i - 1] == s[i]; }
  }

  // ----- provenance and time to live

  /** Put number `j` of the run is where the entry came from. */
  ghost predicate CameFrom(opts: Limits, es: seq<Event>, entry: Entry, j: int) {
    && 0 <= j < |es|
    && es[j].PutEvent? && es[j].key == entry.key && es[j].msg == entry.wire && es[j].packs
    && Cacheable(entry.wire)
    && entry.expires == es[j].now + EffectiveTTL(Run(opts, es[..j]).limits, entry.wire)
    && Lasts(Run(opts, es[..j]).limits, entry.wire, entry.expires - es[j].now)
    && (forall m | j < m < |es| && es[m].PutEvent? && es[m].key == entry.key ::
          !Stores(Run(opts, es[..m]), es[m].msg, es[m].packs))
  }

  lemma CameFromExtends(opts: Limits, es: seq<Event>, e: Event, entry: Entry, j: int)
    requires CameFrom(opts, es, entry, j)
    requires e.PutEvent? && e.key == entry.key ==> !Stores(Run(opts, es), e.msg, e.packs)
    ensures CameFrom(opts, es + [e], entry, j)
  {
    var es' := es + [e];
    assert es'[..j] == es[..j];
    forall m | j < m < |es'| && es'[m].PutEvent? && es'[m].key == entry.key
      ensures !Stores(Run(opts, es'[..m]), es'[m].msg, es'[m].packs)
    {
      if m < |es| { assert es'[..m] == es[..m] && es'[m] == es[m]; } else { assert es'[..m] == es; }
    }
  }

  /** Every cached entry is the latest stored put of its key. */
  lemma {:induction false} EntryCameFrom(opts: Limits, es: seq<Event>, entry: Entry) returns (j: int)
    requires entry in Run(opts, es).entries
    ensures CameFrom(opts, es, entry, j)
  {
    var before, e := es[..|es| - 1], es[|es| - 1];
    assert es == before + [e];
    var s := Run(opts, before);
    RunKeepsInv(opts, before);
    if e.PutEvent? && Stores(s, e.msg, e.packs) && e.key == entry.key {
      j := |es| - 1;
      EffectiveLasts(s.limits, e.msg);
    } else {
      j := EntryCameFrom(opts, before, entry);
      CameFromExtends(opts, before, e, entry, j);
    }
  }

  ghost predicate TTLsAre(reply: seq<RR>, original: seq<RR>, left: int) {
    && |reply| == |original|
    && forall i | 0 <= i < |reply| ::
         && reply[i].rrtype == original[i].rrtype && reply[i].rdata == original[i].rdata
         && reply[i].ttl == if original[i].rrtype == TYPE_OPT || original[i].ttl <= left then original[i].ttl else left
  }

  /** `reply` is the stored message with every record's TTL the smaller of its own and the whole seconds left. */
  ghost predicate Serves(reply: Msg, source: Entry, req: Option<Rewrite>, now: int) {
    var left := if source.expires - now < SECOND then 1 else (source.expires - now) / SECOND;
    && TTLsAre(reply.answer, source.wire.answer, left)
    && TTLsAre(reply.ns, source.wire.ns, left)
    && TTLsAre(reply.extra, source.wire.extra, left)
    && reply.rcode == source.wire.rcode && reply.opcode == source.wire.opcode
    && (req.Some? ==> reply.id == req.value.id && reply.question == req.value.question)
  }

  lemma ReplyServes(s: State, key: Key, req: Option<Rewrite>, unpacks: bool, now: int)
    requires Reply(s, key, req, unpacks, now).Some?
    requires s.entries[Find(s.entries, key)].expires - now < SECOND * TWO_TO_THE_32
    ensures Serves(Reply(s, key, req, unpacks, now).value, s.entries[Find(s.entries, key)], req, now)
  {
  }

  /** Every hit serves an earlier put of the same key, before its answer has lasted its time by the limits then. */
  lemma HitIsSound(opts: Limits, es: seq<Event>, key: Key, req: Option<Rewrite>, unpacks: bool, now: int)
    returns (j: int, source: Entry)
    requires Reply(Run(opts, es), key, req, unpacks, now).Some?
    ensures CameFrom(opts, es, source, j) && source.key == key
    ensures now < source.expires && Lasts(Run(opts, es[..j]).limits, es[j].msg, source.expires - es[j].now)
    ensures source.expires - now < SECOND * TWO_TO_THE_32 ==>
              Serves(Reply(Run(opts, es), key, req, unpacks, now).value, source, req, now)
  {
    source := Run(opts, es).entries[Find(Run(opts, es).entries, key)];
    assert source in Run(opts, es).entries;
    j := EntryCameFrom(opts, es, source);
    if source.expires - now < SECOND * TWO_TO_THE_32 {
      ReplyServes(Run(opts, es), key, req, unpacks, now);
    }
  }

  ghost predicate TTLsNotAbove(later: seq<RR>, earlier: seq<RR>) {
    |later| == |earlier| && forall i | 0 <= i < |later| :: later[i].ttl <= earlier[i].ttl
  }

  /** Between two events nothing stores a put of `key`. */
  ghost predicate NoStore(opts: Limits, es: seq<Event>, from: nat, key: Key) {
    forall m | from <= m < |es| && es[m].PutEvent? && es[m].key == key ::
      !Stores(Run(opts, es[..m]), es[m].msg, es[m].packs)
  }

  /** A later reply from the same entry carries no higher TTL. */
  ghost predicate NotAbove(later: Msg, earlier: Msg) {
    && TTLsNotAbove(later.answer, earlier.answer)
    && TTLsNotAbove(later.ns, earlier.ns)
    && TTLsNotAbove(later.extra, earlier.extra)
  }

  /** Whatever happens between two hits on one stored answer, the TTLs the client sees do not rise. */
  lemma TTLsNeverRise(opts: Limits, es: seq<Event>, n: nat, key: Key, req: Option<Rewrite>, now: int,
                      req': Option<Rewrite>, now': int)
    requires n <= |es| && now <= now' && NoStore(opts, es, n, key)
    requires Reply(Run(opts, es[..n]), key, req, true, now).Some?
    requires Reply(Run(opts, es), key, req', true, now').Some?
    requires Run(opts, es[..n]).entries[Find(Run(opts, es[..n]).entries, key)].expires - now < SECOND * TWO_TO_THE_32
    ensures NotAbove(Reply(Run(opts, es), key, req', true, now').value,
      Reply(Run(opts, es[..n]), key, req, true, now).value)
  {
    SameEntryLater(opts, es, n, key);
    var s, s' := Run(opts, es[..n]), Run(opts, es);
    ReplyServes(s, key, req, true, now);
    ReplyServes(s', key, req', true, now');
  }

  lemma {:induction false} SameEntryLater(opts: Limits, es: seq<Event>, n: nat, key: Key)
    requires n <= |es| && NoStore(opts, es, n, key)
    requires Holds(Run(opts, es).entries, key)
    ensures Holds(Run(opts, es[..n]).entries, key)
    ensures Run(opts, es).entries[Find(Run(opts, es).entries, key)]
         == Run(opts, es[..n]).entries[Find(Run(opts, es[..n]).entries, key)]
  {
    if n == |es| {
      assert es[..n] == es;
    } else {
      var before, e := es[..|es| - 1], es[|es| - 1];
      assert before[..n] == es[..n];
      assert NoStore(opts, before, n, key) by {
        forall m | n <= m < |before| && before[m].PutEvent? && before[m].key == key
          ensures !Stores(Run(opts, before[..m]), before[m].msg, before[m].packs)
        { assert before[..m] == es[..m] && before[m] == es[m]; }
      }
      RunKeepsInv(opts, before);
      EntrySurvives(Run(opts, before), e, key);
      SameEntryLater(opts, before, n, key);
    }
  }

  lemma EntrySurvives(s: State, e: Event, key: Key)
    requires Inv(s) && Holds(Step(s, e).entries, key)
    requires e.PutEvent? && e.key == key ==> !Stores(s, e.msg, e.packs)
    ensures Holds(s.entries, key)
    ensures s.entries[Find(s.entries, key)] == Step(s, e).entries[Find(Step(s, e).entries, key)]
  {
    var j := Find(Step(s, e).entries, key);
    StepIsShift(s, e);
    ShiftAt(Front(s, e), s.entries, Gone(s, e), Cut(s, e), j);
    var i := if j < |Front(s, e)| then Gone(s, e) else Origin(Front(s, e), Gone(s, e), j);
    assert s.entries[i] == Step(s, e).entries[j];
    assert Find(s.entries, key) == i;
  }
}

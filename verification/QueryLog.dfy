/**
 * The in-memory query log: a ring of recent entries, the filtered view of it,
 * and subscribers that lose the oldest entry when they fall behind
 * (internal/log/fanout.go and internal/log/query.go).
 */
module QueryLog {
  import opened Options
  import opened Ordering

  datatype Entry = Entry(clientKey: string, clientIP: string, clientName: string, qname: string, blocked: bool)

  function LastN<T>(s: seq<T>, n: nat): (r: seq<T>)
    ensures |r| == if |s| < n then |s| else n
    ensures r == s[|s| - |r|..]
  {
    if |s| > n then s[|s| - n..] else s
  }

  // ----- the ring

  /** The index after `at`, around. */
  function Next(at: nat, size: nat): nat {
    if at + 1 == size then 0 else at + 1
  }

  /**
   * What a ring holds: everything until it is full, then, read from `next` on and around, the tail of what was
   * published.
   */
  ghost predicate Reads(ring: seq<Entry>, next: nat, filled: bool, published: seq<Entry>) {
    if ring == [] then next == 0 && !filled
    else if filled then next < |ring| <= |published| && ring[next..] + ring[..next] == published[|published| - |ring|..]
    else next == |published| < |ring| && ring[..next] == published
  }

  class Ring {
    const ring: array<Entry>
    var next: nat
    var filled: bool
    ghost var published: seq<Entry>

    ghost predicate Valid()
      reads this, ring
    {
      Reads(ring[..], next, filled, published)
    }

    constructor (ringSize: int)
      ensures Valid() && published == [] && ring.Length == (if ringSize < 0 then 0 else ringSize) && fresh(ring)
    {
      ring := new Entry[if ringSize < 0 then 0 else ringSize](_ => Entry("", "", "", "", false));
      next, filled, published := 0, false, [];
    }

    method Publish(e: Entry)
      requires Valid()
      modifies this`next, this`filled, this`published, ring
      ensures Valid() && published == old(published) + [e]
    {
      if ring.Length > 0 {
        Put(e);
      }
      published := published + [e];
    }

    method Put(e: Entry)
      requires ring.Length > 0 && next < ring.Length
      modifies this`next, this`filled, ring
      ensures next == Next(old(next), ring.Length)
      ensures filled <==> old(filled) || next == 0
      ensures ring[..] == old(ring[..])[old(next) := e]
    {
      ring[next] := e;
      next := (next + 1) % ring.Length;
      if next == 0 { filled := true; }
    }

    /** The last entries published, as many as the ring holds, oldest first. */
    method Snapshot() returns (out: seq<Entry>)
      requires Valid()
      ensures out == LastN(published, ring.Length)
    {
      if ring.Length == 0 || (!filled && next == 0) { return []; }
      assert ring[..][next..] == ring[next..] && ring[..][..next] == ring[..next];
      if !filled { out := ring[..next]; } else { out := ring[next..] + ring[..next]; }
    }

    /** The newest matching entries, oldest first. */
    method Recent(f: Filter, containsFold: (string, string) -> bool) returns (out: seq<Entry>)
      requires Valid()
      ensures out == LastN(Matches(LastN(published, ring.Length), f, containsFold), Limit(f.limit))
      ensures var limit := if 1 <= f.limit <= 1000 then f.limit else 100;
        var found := |Matches(LastN(published, ring.Length), f, containsFold)|;
        |out| == if found < limit then found else limit
    {
      var limit := if f.limit <= 0 || f.limit > 1000 then 100 else f.limit;
      var entries := Snapshot();
      out := Newest(entries, f, limit, containsFold);
      out := Reverse(out);
    }
  }

  // ----- reading it

  datatype Filter = Filter(client: string, qname: string, blocked: Option<bool>, limit: int)

  function Limit(limit: int): nat {
    if limit <= 0 || limit > 1000 then 100 else limit
  }

  predicate Selects(f: Filter, e: Entry, containsFold: (string, string) -> bool) {
    && (f.client != "" ==> f.client in {e.clientKey, e.clientIP, e.clientName})
    && (f.qname != "" ==> containsFold(e.qname, f.qname))
    && (f.blocked.Some? ==> e.blocked == f.blocked.value)
  }

  /** The entries that the filter selects, in order. */
  function Matches(entries: seq<Entry>, f: Filter, containsFold: (string, string) -> bool): seq<Entry> {
    if entries == [] then []
    else (if Selects(f, entries[0], containsFold) then [entries[0]] else []) + Matches(entries[1..], f, containsFold)
  }

  method IsSelected(f: Filter, e: Entry, containsFold: (string, string) -> bool) returns (selected: bool)
    ensures selected == Selects(f, e, containsFold)
  {
    if f.client != "" && e.clientKey != f.client && e.clientIP != f.client && e.clientName != f.client { return false; }
    if f.qname != "" && !containsFold(e.qname, f.qname) { return false; }
    if f.blocked.Some? && e.blocked != f.blocked.value { return false; }
    return true;
  }

  /** Walks backwards until enough entries match. */
  method Newest(entries: seq<Entry>, f: Filter, limit: nat, containsFold: (string, string) -> bool)
    returns (out: seq<Entry>)
    ensures Reversed(out) == LastN(Matches(entries, f, containsFold), limit)
  {
    out := [];
    var i := |entries|;
    while i > 0 && |out| < limit
      invariant 0 <= i <= |entries| && |out| <= limit
      invariant Reversed(out) == Matches(entries[i..], f, containsFold)
    {
      i := i - 1;
      var selected := IsSelected(f, entries[i], containsFold);
      if selected { out := out + [entries[i]]; }
    }
    TailIsLast(entries, i, f, containsFold, |out|);
  }

  /** A tail's matches are the last ones of the whole, and all of them when the tail is the whole. */
  lemma TailIsLast(entries: seq<Entry>, i: nat, f: Filter, containsFold: (string, string) -> bool, n: nat)
    requires i <= |entries| && n == |Matches(entries[i..], f, containsFold)|
    ensures Matches(entries[i..], f, containsFold) == LastN(Matches(entries, f, containsFold), n)
    ensures i == 0 ==> n == |Matches(entries, f, containsFold)|
  {
    TailMatches(entries, i, f, containsFold);
    if i == 0 { assert entries[0..] == entries; }
  }

  /** The matches in a tail end the matches of the whole. */
  lemma {:induction false} TailMatches(entries: seq<Entry>, k: nat, f: Filter, containsFold: (string, string) -> bool)
    requires k <= |entries|
    ensures var all, tail := Matches(entries, f, containsFold), Matches(entries[k..], f, containsFold);
      |tail| <= |all| && all[|all| - |tail|..] == tail
  {
    if k > 0 {
      TailMatches(entries[1..], k - 1, f, containsFold);
      assert entries[1..][k - 1..] == entries[k..];
    } else {
      assert entries[0..] == entries;
    }
  }

  /** Swaps from both ends inwards. */
  method Reverse(s: seq<Entry>) returns (out: seq<Entry>)
    ensures out == Reversed(s)
  {
    out := s;
    var i, j := 0, |s| - 1;
    while i < j
      invariant |out| == |s| && 0 <= i <= j + 1 && i + j == |s| - 1
      invariant forall k | 0 <= k < |s| && (k < i || k > j) :: out[k] == s[|s| - 1 - k]
      invariant forall k | i <= k <= j :: out[k] == s[k]
    {
      out := out[i := out[j]][j := out[i]];
      i, j := i + 1, j - 1;
    }
  }

  /** Matching keeps order and drops nothing it selects: a match at `i` is a match of the whole, and nothing else is. */
  lemma {:induction false} MatchesAreSelected(entries: seq<Entry>, f: Filter, containsFold: (string, string) -> bool)
    ensures forall e :: e in Matches(entries, f, containsFold) <==> e in entries && Selects(f, e, containsFold)
    ensures multiset(Matches(entries, f, containsFold)) <= multiset(entries)
  {
    if entries != [] {
      MatchesAreSelected(entries[1..], f, containsFold);
      assert entries == [entries[0]] + entries[1..];
    }
  }

  /** What is asked for: one of three names of the client, a part of the name queried, blocked or not; or nothing. */
  predicate AsksFor(f: Filter, e: Entry, containsFold: (string, string) -> bool) {
    && (f.client == "" || e.clientKey == f.client || e.clientIP == f.client || e.clientName == f.client)
    && (f.qname == "" || containsFold(e.qname, f.qname))
    && (f.blocked == None || f.blocked == Some(e.blocked))
  }

  /** A newer entry comes last among the matches if the filter asks for it, and not at all otherwise. */
  lemma {:induction false} MatchesOneMore(entries: seq<Entry>, e: Entry, f: Filter,
                                          containsFold: (string, string) -> bool)
    ensures Matches([], f, containsFold) == []
    ensures Matches(entries + [e], f, containsFold)
         == Matches(entries, f, containsFold) + if AsksFor(f, e, containsFold) then [e] else []
  {
    if entries == [] {
      assert ([e])[1..] == [];
    } else {
      MatchesOneMore(entries[1..], e, f, containsFold);
      assert (entries + [e])[1..] == entries[1..] + [e];
    }
  }

  // ----- a subscriber

  /** Where a send is: between entries, or past its first or second select. */
  datatype Phase = Resting | FoundFull(position: nat) | MadeRoom(position: nat)

  /**
   * One subscriber's channel. Entries are named by their position in `published`,
   * the entries sent since it subscribed.
   */
  datatype Channel<T> = Channel(size: nat, published: seq<T>, buffer: seq<nat>, received: seq<nat>, dropped: seq<nat>,
                                phase: Phase)

  function Subscribe<T>(size: int): Channel<T> {
    Channel(if size <= 0 then 1 else size, [], [], [], [], Resting)
  }

  datatype Event<T> =
    | Send(entry: T)     // the first select of a send: in the buffer, or full
    | DropOldest         // the second select: receive one, if any
    | SendAgain          // the third select: send, or give up
    | Receive            // the consumer, at any time

  predicate Enabled<T>(c: Channel<T>, e: Event<T>) {
    match e
    case Send(_) => c.phase.Resting?
    case DropOldest => c.phase.FoundFull?
    case SendAgain => c.phase.MadeRoom?
    case Receive => c.buffer != []
  }

  function Apply<T>(c: Channel<T>, e: Event<T>): Channel<T>
    requires Enabled(c, e)
  {
    match e
    case Send(entry) =>
      var sent := c.(published := c.published + [entry]);
      if |c.buffer| < c.size then sent.(buffer := c.buffer + [|c.published|])
        else sent.(phase := FoundFull(|c.published|))
    case DropOldest =>
      var room := c.(phase := MadeRoom(c.phase.position));
      if c.buffer == [] then room else room.(buffer := c.buffer[1..], dropped := c.dropped + [c.buffer[0]])
    case SendAgain =>
      if |c.buffer| < c.size then c.(buffer := c.buffer + [c.phase.position], phase := Resting)
      else c.(dropped := c.dropped + [c.phase.position], phase := Resting)
    case Receive => c.(buffer := c.buffer[1..], received := c.received + [c.buffer[0]])
  }

  datatype Trace<T> = Begin | Then(before: Trace<T>, event: Event<T>)

  predicate CanRun<T>(c: Channel<T>, trace: Trace<T>)
    decreases trace, 0
  {
    trace.Then? ==> CanRun(c, trace.before) && Enabled(Run(c, trace.before), trace.event)
  }

  function Run<T>(c: Channel<T>, trace: Trace<T>): Channel<T>
    requires CanRun(c, trace)
    decreases trace, 1
  {
    match trace
    case Begin => c
    case Then(before, e) => Apply(Run(c, before), e)
  }

  /** Entries that were delivered or wait for delivery, by position. */
  function Kept<T>(c: Channel<T>): seq<nat> {
    c.received + c.buffer
  }

  /** The number of entries whose send is over. */
  function Settled<T>(c: Channel<T>): nat {
    if c.phase.Resting? then |c.published| else c.phase.position
  }

  ghost predicate Increasing(s: seq<nat>) {
    forall i, j | 0 <= i < j < |s| :: s[i] < s[j]
  }

  /** In order, nothing twice, the newest kept, and everything not kept was dropped. */
  ghost predicate InOrder<T>(c: Channel<T>) {
    && 0 < c.size && |c.buffer| <= c.size
    && (!c.phase.Resting? ==> c.phase.position + 1 == |c.published|)
    && (c.phase.MadeRoom? ==> |c.buffer| < c.size)
    && Increasing(Kept(c))
    && (forall k | k in Kept(c) :: k < Settled(c))
    && |Kept(c)| + |c.dropped| == Settled(c)
    && (c.phase.Resting? && c.published != [] ==> Kept(c) != [] && Kept(c)[|Kept(c)| - 1] == |c.published| - 1)
  }

  lemma SendKeepsOrder<T>(c: Channel<T>, entry: T)
    requires InOrder(c) && Enabled(c, Send(entry))
    ensures InOrder(Apply(c, Send(entry)))
  {
    var d := Apply(c, Send(entry));
    if |c.buffer| < c.size {
      assert Kept(d) == Kept(c) + [|c.published|];
      StillIncreasing(Kept(c), |c.published|);
    }
  }

  lemma StillIncreasing(s: seq<nat>, n: nat)
    requires Increasing(s) && forall k | k in s :: k < n
    ensures Increasing(s + [n])
  {
    assert forall i | 0 <= i < |s| :: s[i] in s;
  }

  lemma SendAgainKeepsOrder<T>(c: Channel<T>)
    requires InOrder(c) && Enabled(c, SendAgain)
    ensures InOrder(Apply(c, SendAgain))
  {
    assert Kept(Apply(c, SendAgain)) == Kept(c) + [c.phase.position];
    StillIncreasing(Kept(c), c.phase.position);
  }

  lemma ReceiveKeepsOrder<T>(c: Channel<T>)
    requires InOrder(c) && Enabled(c, Receive)
    ensures InOrder(Apply(c, Receive))
  {
    assert Kept(Apply(c, Receive)) == Kept(c);
  }

  lemma DropKeepsOrder<T>(c: Channel<T>)
    requires InOrder(c) && Enabled(c, DropOldest)
    ensures InOrder(Apply(c, DropOldest))
  {
    var d := Apply(c, DropOldest);
    var n := |c.received|;
    if c.buffer != [] {
      assert Kept(d) == Kept(c)[..n] + Kept(c)[n + 1..];
      forall k | k in Kept(d) ensures k in Kept(c) {}
    }
  }

  /** In every interleaving of sends and receives. */
  lemma {:induction false} RunKeepsOrder<T>(c: Channel<T>, trace: Trace<T>)
    requires InOrder(c) && CanRun(c, trace)
    ensures InOrder(Run(c, trace))
  {
    if trace.Then? {
      RunKeepsOrder(c, trace.before);
      var d := Run(c, trace.before);
      match trace.event
      case Send(entry) => SendKeepsOrder(d, entry);
      case DropOldest => DropKeepsOrder(d);
      case SendAgain => SendAgainKeepsOrder(d);
      case Receive => ReceiveKeepsOrder(d);
    }
  }

  /** The newest entry is never the one dropped: the third select always finds room. */
  lemma {:induction false} NewestNeverDropped<T>(size: int, trace: Trace<T>)
    requires CanRun(Subscribe<T>(size), trace)
    ensures InOrder(Run(Subscribe<T>(size), trace))
    ensures forall k | k in Run(Subscribe<T>(size), trace).dropped :: k < Settled(Run(Subscribe<T>(size), trace))
              && k !in Kept(Run(Subscribe<T>(size), trace))
  {
    var start := Subscribe<T>(size);
    RunKeepsOrder(start, trace);
    if trace.Then? {
      NewestNeverDropped(size, trace.before);
      DropsStayOut(Run(start, trace.before), trace.event);
    }
  }

  lemma DropsStayOut<T>(c: Channel<T>, e: Event<T>)
    requires InOrder(c) && Enabled(c, e)
    requires forall k | k in c.dropped :: k < Settled(c) && k !in Kept(c)
    ensures forall k | k in Apply(c, e).dropped :: k < Settled(Apply(c, e)) && k !in Kept(Apply(c, e))
  {
    var d := Apply(c, e);
    match e
    case Send(entry) => if |c.buffer| < c.size { assert Kept(d) == Kept(c) + [|c.published|]; }
    case Receive => assert Kept(d) == Kept(c);
    case SendAgain => assert Kept(d) == Kept(c) + [c.phase.position];
    case DropOldest => if c.buffer != [] { OldestIsOut(c); }
  }

  lemma OldestIsOut<T>(c: Channel<T>)
    requires InOrder(c) && Enabled(c, DropOldest) && c.buffer != []
    ensures c.buffer[0] < Settled(c) && c.buffer[0] !in Kept(Apply(c, DropOldest))
    ensures forall k | k in Kept(Apply(c, DropOldest)) :: k in Kept(c)
  {
    var n, kept := |c.received|, Kept(Apply(c, DropOldest));
    assert Kept(c)[n] == c.buffer[0] && c.buffer[0] in Kept(c);
    forall i | 0 <= i < |kept| ensures kept[i] == Kept(c)[if i < n then i else i + 1] {}
  }

  /** The entries at increasing positions. */
  function Values<T>(published: seq<T>, positions: seq<nat>): seq<T>
    requires forall k | k in positions :: k < |published|
  {
    seq(|positions|, i requires 0 <= i < |positions| => assert positions[i] in positions; published[positions[i]])
  }

  predicate Subsequence<T(==)>(s: seq<T>, whole: seq<T>) {
    s == [] || (whole != [] && ((s[0] == whole[0] && Subsequence(s[1..], whole[1..])) || Subsequence(s, whole[1..])))
  }

  lemma {:induction false} IncreasingIsSubsequence<T>(published: seq<T>, positions: seq<nat>, from_: nat)
    requires Increasing(positions) && from_ <= |published|
    requires forall k | k in positions :: from_ <= k < |published|
    ensures Subsequence(Values(published, positions), published[from_..])
    decreases |published| - from_
  {
    if positions != [] {
      assert positions[0] in positions;
      assert published[from_..][1..] == published[from_ + 1..];
      if positions[0] == from_ {
        forall k | k in positions[1..] ensures from_ < k < |published| {
          var i :| 0 < i < |positions| && positions[i] == k;
          assert positions[i] in positions;
        }
        IncreasingIsSubsequence(published, positions[1..], from_ + 1);
        assert Values(published, positions)[1..] == Values(published, positions[1..]);
      } else {
        forall k | k in positions ensures from_ < k {
          var i :| 0 <= i < |positions| && positions[i] == k;
        }
        IncreasingIsSubsequence(published, positions, from_ + 1);
      }
    }
  }

  /** What a subscriber received and still has to receive is an ordered subsequence of what was published. */
  lemma ReceivedIsSubsequence<T>(size: int, trace: Trace<T>)
    requires CanRun(Subscribe<T>(size), trace)
    ensures var c := Run(Subscribe<T>(size), trace);
      && (forall k | k in Kept(c) :: k < |c.published|)
      && Subsequence(Values(c.published, Kept(c)), c.published)
  {
    RunKeepsOrder(Subscribe<T>(size), trace);
    var c := Run(Subscribe<T>(size), trace);
    IncreasingIsSubsequence(c.published, Kept(c), 0);
    assert c.published[0..] == c.published;
  }
}

/**
 * The statistics aggregator (internal/stats/aggregator.go): every flush turns the
 * live counters into a delta and adds it to an hourly and a daily row. Rows are
 * keyed by the start of their bucket in seconds; the store may fail at any call.
 */
module Aggregation {
  import opened Options

  const MINUTE := 60
  const HOUR := 3600
  const DAY := 86400

  datatype Counter = Queries | CacheHits | CacheMisses | BlockedQueries | RateLimited | Malformed

  /** The live totals at one moment, and a row of rolled-up ones. */
  type Snapshot = Counter -> nat
  type Row = map<Counter, nat>

  datatype Slot = Slot(granularity: string, bucket: int)
  type Table = map<Slot, Row>

  /**
   * How a write ends: done, refused, or (as when the JSON store cannot save its file) reported as failed yet
   * visible.
   */
  datatype Write = Stored | Refused | FailedButVisible

  /** What the store does during one flush. */
  datatype Luck = Luck(minute: Write, hourReads: bool, hour: Write, dayReads: bool, day: Write)

  datatype Flush = Flush(snapshot: Snapshot, now: int, luck: Luck)

  datatype History = NoFlush | After(before: History, flush: Flush)

  datatype State = State(table: Table, last: Option<Snapshot>)

  function Truncate(now: int, unit: int): int
    requires unit > 0
  {
    now - now % unit
  }

  function AllCounters(): set<Counter> {
    {Queries, CacheHits, CacheMisses, BlockedQueries, RateLimited, Malformed}
  }

  /** A counter that went down was restarted, so all it shows is new. */
  function DeltaCounter(current: nat, previous: nat): nat {
    if current < previous then current else current - previous
  }

  function Delta(snapshot: Snapshot, last: Option<Snapshot>, c: Counter): nat {
    match last
    case None => snapshot(c)
    case Some(previous) => DeltaCounter(snapshot(c), previous(c))
  }

  function DeltaRow(snapshot: Snapshot, last: Option<Snapshot>): Row {
    map c <- AllCounters() :: Delta(snapshot, last, c)
  }

  /** A counter of a row, zero where nothing was counted. */
  function At(table: Table, slot: Slot, c: Counter): nat {
    if slot in table && c in table[slot] then table[slot][c] else 0
  }

  function RowAt(table: Table, slot: Slot): Row {
    if slot in table then table[slot] else map[]
  }

  function Plus(row: Row, delta: Row): Row {
    map c <- row.Keys + delta.Keys ::
      (if c in row then row[c] else 0) + (if c in delta then delta[c] else 0)
  }

  function Written(table: Table, slot: Slot, row: Row, w: Write): Table {
    if w.Refused? then table else table[slot := row]
  }

  /** addRollup: the table and whether the flush goes on. */
  function Rollup(table: Table, slot: Slot, delta: Row, found: bool, w: Write): (Table, bool) {
    if !found then (table, false) else (Written(table, slot, Plus(RowAt(table, slot), delta), w), w.Stored?)
  }

  function HourSlot(now: int): Slot { Slot("1h", Truncate(now, HOUR)) }
  function DaySlot(now: int): Slot { Slot("1d", Truncate(now, DAY)) }

  function Step(s: State, f: Flush): State {
    var delta := DeltaRow(f.snapshot, s.last);
    var t1 := Written(s.table, Slot("1m", Truncate(f.now, MINUTE)), delta, f.luck.minute);
    if !f.luck.minute.Stored? then s.(table := t1)
    else
      var (t2, ok2) := Rollup(t1, HourSlot(f.now), delta, f.luck.hourReads, f.luck.hour);
      if !ok2 then s.(table := t2)
      else
        var (t3, ok3) := Rollup(t2, DaySlot(f.now), delta, f.luck.dayReads, f.luck.day);
        if !ok3 then s.(table := t3) else State(t3, Some(f.snapshot))
  }

  function Run(table: Table, h: History): State {
    match h
    case NoFlush => State(table, None)
    case After(before, f) => Step(Run(table, before), f)
  }

  // ----- what a run should have counted

  predicate HourWritten(f: Flush) {
    f.luck.minute.Stored? && f.luck.hourReads && !f.luck.hour.Refused?
  }

  predicate DayWritten(f: Flush) {
    f.luck.minute.Stored? && f.luck.hourReads && f.luck.hour.Stored? && f.luck.dayReads && !f.luck.day.Refused?
  }

  predicate Succeeds(f: Flush) {
    DayWritten(f) && f.luck.day.Stored?
  }

  /** The snapshot of the last flush that succeeded. */
  function LastFlushed(h: History): Option<Snapshot> {
    match h
    case NoFlush => None
    case After(before, f) => if Succeeds(f) then Some(f.snapshot) else LastFlushed(before)
  }

  /** The deltas of the flushes that `counts` selects, added up. */
  function Total(h: History, c: Counter, counts: Flush -> bool): nat {
    match h
    case NoFlush => 0
    case After(before, f) =>
      Total(before, c, counts) + if counts(f) then Delta(f.snapshot, LastFlushed(before), c) else 0
  }

  function In(day: int): Flush -> bool {
    (f: Flush) => Truncate(f.now, DAY) == day
  }

  function And(p: Flush -> bool, q: Flush -> bool): Flush -> bool {
    (f: Flush) => p(f) && q(f)
  }

  /** The 24 hourly rows of a day, up to the `n`-th. */
  function HoursOf(table: Table, day: int, n: nat, c: Counter): nat {
    if n == 0 then 0 else HoursOf(table, day, n - 1, c) + At(table, Slot("1h", day + (n - 1) * HOUR), c)
  }

  /** The daily rows of `n` days in a row. */
  function DaysFrom(table: Table, first: int, n: nat, c: Counter): nat {
    if n == 0 then 0 else DaysFrom(table, first, n - 1, c) + At(table, Slot("1d", (first + n - 1) * DAY), c)
  }

  // ----- one flush

  lemma RollupRow(table: Table, into: Slot, delta: Row, found: bool, w: Write, slot: Slot, c: Counter)
    requires c in delta
    ensures At(Rollup(table, into, delta, found, w).0, slot, c)
         == At(table, slot, c) + if found && !w.Refused? && slot == into then delta[c] else 0
  {
  }

  /** What one flush does to any hourly or daily row. */
  lemma StepRows(s: State, f: Flush, slot: Slot, c: Counter)
    requires slot.granularity != "1m"
    ensures var d := Delta(f.snapshot, s.last, c);
      At(Step(s, f).table, slot, c) == At(s.table, slot, c)
        + (if HourWritten(f) && slot == HourSlot(f.now) then d else 0)
        + (if DayWritten(f) && slot == DaySlot(f.now) then d else 0)
    ensures Step(s, f).last == if Succeeds(f) then Some(f.snapshot) else s.last
  {
    var delta := DeltaRow(f.snapshot, s.last);
    assert c in AllCounters() by { match c case _ => }
    assert delta[c] == Delta(f.snapshot, s.last, c);
    assert HourSlot(f.now) != DaySlot(f.now) by { assert "1h"[1] != "1d"[1]; }
    assert Slot("1m", Truncate(f.now, MINUTE)) != slot;
    var t1 := Written(s.table, Slot("1m", Truncate(f.now, MINUTE)), delta, f.luck.minute);
    RollupRow(t1, HourSlot(f.now), delta, f.luck.hourReads, f.luck.hour, slot, c);
    var t2 := Rollup(t1, HourSlot(f.now), delta, f.luck.hourReads, f.luck.hour).0;
    RollupRow(t2, DaySlot(f.now), delta, f.luck.dayReads, f.luck.day, slot, c);
  }

  /** A multiple of the unit, and the last one not after `now`. */
  predicate StartsBucket(start: int, now: int, unit: int)
    requires unit > 0
  {
    start % unit == 0 && start <= now < start + unit
  }

  lemma StartsAreTruncated(minute: int, hour: int, day: int, now: int)
    requires StartsBucket(minute, now, 60) && StartsBucket(hour, now, 3600) && StartsBucket(day, now, 86400)
    ensures Truncate(now, MINUTE) == minute && Truncate(now, HOUR) == hour && Truncate(now, DAY) == day
  {
    MinuteIsTruncated(minute, now);
    HourIsTruncated(hour, now);
    DayIsTruncated(day, now);
  }

  lemma MinuteIsTruncated(minute: int, now: int)
    requires StartsBucket(minute, now, 60)
    ensures Truncate(now, MINUTE) == minute
  {
    var p, q := minute / 60, now / 60;
    assert minute == 60 * p && now == 60 * q + now % 60;
  }

  lemma HourIsTruncated(hour: int, now: int)
    requires StartsBucket(hour, now, 3600)
    ensures Truncate(now, HOUR) == hour
  {
    var p, q := hour / 3600, now / 3600;
    assert hour == 3600 * p && now == 3600 * q + now % 3600;
  }

  lemma DayIsTruncated(day: int, now: int)
    requires StartsBucket(day, now, 86400)
    ensures Truncate(now, DAY) == day
  {
    var p, q := day / 86400, now / 86400;
    assert day == 86400 * p && now == 86400 * q + now % 86400;
  }

  /** What a counter shows beyond the last flush; everything when there was none or it was restarted since. */
  function Grown(f: Flush, last: Option<Snapshot>, c: Counter): nat {
    if last.Some? && last.value(c) <= f.snapshot(c) then f.snapshot(c) - last.value(c) else f.snapshot(c)
  }

  /**
   * A flush that nothing disturbs writes what its counters have grown by into the row of its minute, and adds it to the
   * rows of its hour and its day.
   */
  lemma FlushWritesGrowth(s: State, f: Flush, minute: int, hour: int, day: int, c: Counter)
    requires f.luck == Luck(Stored, true, Stored, true, Stored)
    requires StartsBucket(minute, f.now, 60) && StartsBucket(hour, f.now, 3600) && StartsBucket(day, f.now, 86400)
    ensures var after, grown := Step(s, f), Grown(f, s.last, c);
      && At(after.table, Slot("1m", minute), c) == grown
      && At(after.table, Slot("1h", hour), c) == At(s.table, Slot("1h", hour), c) + grown
      && At(after.table, Slot("1d", day), c) == At(s.table, Slot("1d", day), c) + grown
      && after.last == Some(f.snapshot)
  {
    StartsAreTruncated(minute, hour, day, f.now);
    assert "1h"[1] != "1d"[1] && "1m"[1] != "1h"[1] && "1m"[1] != "1d"[1];
    StepRows(s, f, Slot("1h", hour), c);
    StepRows(s, f, Slot("1d", day), c);
    MinuteRow(s, f, c);
  }

  /** The row of the minute holds the delta, unless its write was refused. */
  lemma MinuteRow(s: State, f: Flush, c: Counter)
    ensures At(Step(s, f).table, Slot("1m", Truncate(f.now, MINUTE)), c)
         == if f.luck.minute.Refused? then At(s.table, Slot("1m", Truncate(f.now, MINUTE)), c)
            else Delta(f.snapshot, s.last, c)
  {
    var delta, slot := DeltaRow(f.snapshot, s.last), Slot("1m", Truncate(f.now, MINUTE));
    assert c in AllCounters() by { match c case _ => }
    assert HourSlot(f.now) != slot && DaySlot(f.now) != slot by { assert "1m"[1] != "1h"[1] && "1m"[1] != "1d"[1]; }
    var t1 := Written(s.table, slot, delta, f.luck.minute);
    RollupRow(t1, HourSlot(f.now), delta, f.luck.hourReads, f.luck.hour, slot, c);
    var t2 := Rollup(t1, HourSlot(f.now), delta, f.luck.hourReads, f.luck.hour).0;
    RollupRow(t2, DaySlot(f.now), delta, f.luck.dayReads, f.luck.day, slot, c);
  }

  lemma {:induction false} LastIsLastFlushed(table: Table, h: History)
    ensures Run(table, h).last == LastFlushed(h)
  {
    if h.After? {
      LastIsLastFlushed(table, h.before);
      StepRows(Run(table, h.before), h.flush, Slot("1d", 0), Queries);
    }
  }

  // ----- whole runs

  /** A daily row grows by exactly the deltas of that day's flushes that wrote it. */
  lemma {:induction false} DayRow(table: Table, h: History, day: int, c: Counter)
    ensures At(Run(table, h).table, Slot("1d", day), c)
         == At(table, Slot("1d", day), c) + Total(h, c, And(In(day), DayWritten))
  {
    if h.After? {
      DayRow(table, h.before, day, c);
      LastIsLastFlushed(table, h.before);
      StepRows(Run(table, h.before), h.flush, Slot("1d", day), c);
      assert "1h"[1] != "1d"[1];
    }
  }

  lemma HourOfDay(now: int)
    ensures var day := Truncate(now, DAY); var i := (now - day) / HOUR;
      0 <= i < 24 && Truncate(now, HOUR) == day + i * HOUR
  {
    var q, r := now / DAY, now % DAY;
    assert now == q * DAY + r;
    assert now % HOUR == r % HOUR by { assert now == r + (q * 24) * HOUR; ModShift(r, q * 24); }
  }

  lemma ModShift(r: int, k: int)
    ensures (r + k * HOUR) % HOUR == r % HOUR
  {
  }

  /** The hour of a flush is one of the 24 of its day and of no other day. */
  lemma {:induction false} HoursGrow(before: Table, after: Table, f: Flush, day: int, n: nat, c: Counter, d: nat)
    requires n <= 24 && day % DAY == 0
    requires forall slot: Slot | slot.granularity == "1h" ::
      At(after, slot, c) == At(before, slot, c) + if slot == HourSlot(f.now) then d else 0
    ensures HoursOf(after, day, n, c)
         == HoursOf(before, day, n, c) + if day <= Truncate(f.now, HOUR) < day + n * HOUR then d else 0
  {
    if n > 0 {
      HoursGrow(before, after, f, day, n - 1, c, d);
      var slot := Slot("1h", day + (n - 1) * HOUR);
      assert At(after, slot, c) == At(before, slot, c) + if slot == HourSlot(f.now) then d else 0;
      OnTheHour(f.now, day, n - 1);
    }
  }

  /** Between one hour of a day and the next there is no other start of an hour. */
  lemma OnTheHour(now: int, day: int, i: nat)
    requires day % DAY == 0
    ensures day + i * HOUR <= Truncate(now, HOUR) < day + (i + 1) * HOUR <==> Truncate(now, HOUR) == day + i * HOUR
  {
    var t := Truncate(now, HOUR);
    assert t == (now / HOUR) * HOUR && day == (day / DAY) * 24 * HOUR;
  }

  lemma SameDay(now: int, day: int)
    requires day % DAY == 0
    ensures Truncate(now, DAY) == day <==> day <= Truncate(now, HOUR) < day + 24 * HOUR
  {
    HourOfDay(now);
    var t := Truncate(now, DAY);
    assert t == (now / DAY) * DAY && day == (day / DAY) * DAY;
  }

  /** A day's hourly rows grow by exactly the deltas of that day's flushes that wrote their hour. */
  lemma {:induction false} HourRows(table: Table, h: History, day: int, c: Counter)
    requires day % DAY == 0
    ensures HoursOf(Run(table, h).table, day, 24, c)
         == HoursOf(table, day, 24, c) + Total(h, c, And(In(day), HourWritten))
  {
    if h.After? {
      HourRows(table, h.before, day, c);
      LastIsLastFlushed(table, h.before);
      var s, f := Run(table, h.before), h.flush;
      var d := if HourWritten(f) then Delta(f.snapshot, s.last, c) else 0;
      forall slot: Slot | slot.granularity == "1h"
        ensures At(Step(s, f).table, slot, c) == At(s.table, slot, c) + if slot == HourSlot(f.now) then d else 0
      {
        StepRows(s, f, slot, c);
        assert "1h"[1] != "1d"[1];
      }
      HoursGrow(s.table, Step(s, f).table, f, day, 24, c, d);
      SameDay(f.now, day);
    }
  }

  predicate HourButNotDay(f: Flush) {
    HourWritten(f) && !DayWritten(f)
  }

  lemma {:induction false} TotalSplits(h: History, c: Counter, day: int)
    ensures Total(h, c, And(In(day), HourWritten))
         == Total(h, c, And(In(day), DayWritten)) + Total(h, c, And(In(day), HourButNotDay))
  {
    if h.After? { TotalSplits(h.before, c, day); }
  }

  /**
   * In every run, whatever fails, a day's hourly rows grow more than its daily row by
   * exactly the flushes that wrote the hour and then lost the day.
   */
  lemma HoursExceedDay(table: Table, h: History, day: int, c: Counter)
    requires day % DAY == 0
    ensures HoursOf(Run(table, h).table, day, 24, c) - HoursOf(table, day, 24, c)
         == At(Run(table, h).table, Slot("1d", day), c) - At(table, Slot("1d", day), c)
          + Total(h, c, And(In(day), HourButNotDay))
  {
    DayRow(table, h, day, c);
    HourRows(table, h, day, c);
    TotalSplits(h, c, day);
  }

  ghost predicate NeverFails(h: History) {
    h.After? ==> Succeeds(h.flush) && NeverFails(h.before)
  }

  lemma {:induction false} NothingLost(h: History, c: Counter, day: int)
    requires NeverFails(h)
    ensures Total(h, c, And(In(day), HourButNotDay)) == 0
  {
    if h.After? {
      NothingLost(h.before, c, day);
      assert !HourButNotDay(h.flush);
    }
  }

  /** ... so they grow alike when no flush fails. */
  lemma HoursEqualDay(table: Table, h: History, day: int, c: Counter)
    requires day % DAY == 0 && NeverFails(h)
    ensures HoursOf(Run(table, h).table, day, 24, c) - HoursOf(table, day, 24, c)
         == At(Run(table, h).table, Slot("1d", day), c) - At(table, Slot("1d", day), c)
  {
    HoursExceedDay(table, h, day, c);
    NothingLost(h, c, day);
  }

  // ----- the daily rows together

  lemma {:induction false} DaysGrow(before: Table, after: Table, f: Flush, first: int, n: nat, c: Counter, d: nat)
    requires forall slot: Slot | slot.granularity == "1d" ::
      At(after, slot, c) == At(before, slot, c) + if slot == DaySlot(f.now) then d else 0
    ensures DaysFrom(after, first, n, c)
         == DaysFrom(before, first, n, c) + if first <= f.now / DAY < first + n then d else 0
  {
    if n > 0 {
      DaysGrow(before, after, f, first, n - 1, c, d);
      var slot := Slot("1d", (first + n - 1) * DAY);
      assert At(after, slot, c) == At(before, slot, c) + if slot == DaySlot(f.now) then d else 0;
      assert Truncate(f.now, DAY) == (f.now / DAY) * DAY;
    }
  }

  /** Every flush falls on one of these days. */
  ghost predicate Within(h: History, first: int, n: nat) {
    h.After? ==> first <= h.flush.now / DAY < first + n && Within(h.before, first, n)
  }

  /** Together the daily rows grow by exactly the deltas of the flushes that wrote them. */
  lemma {:induction false} DayRows(table: Table, h: History, first: int, n: nat, c: Counter)
    requires Within(h, first, n)
    ensures DaysFrom(Run(table, h).table, first, n, c) == DaysFrom(table, first, n, c) + Total(h, c, DayWritten)
  {
    if h.After? {
      DayRows(table, h.before, first, n, c);
      LastIsLastFlushed(table, h.before);
      var s, f := Run(table, h.before), h.flush;
      var d := if DayWritten(f) then Delta(f.snapshot, s.last, c) else 0;
      forall slot: Slot | slot.granularity == "1d"
        ensures At(Step(s, f).table, slot, c) == At(s.table, slot, c) + if slot == DaySlot(f.now) then d else 0
      {
        StepRows(s, f, slot, c);
        assert "1h"[1] != "1d"[1];
      }
      DaysGrow(s.table, Step(s, f).table, f, first, n, c, d);
    }
  }

  /** The live counters never go down between flushes, failed ones included. */
  ghost predicate Monotone(h: History) {
    h.After? ==>
      && Monotone(h.before)
      && (h.before.After? ==> forall c: Counter :: h.before.flush.snapshot(c) <= h.flush.snapshot(c))
  }

  lemma {:induction false} LastBelow(h: History, c: Counter)
    requires Monotone(h) && LastFlushed(h).Some?
    ensures h.After? && LastFlushed(h).value(c) <= h.flush.snapshot(c)
  {
    if !Succeeds(h.flush) { LastBelow(h.before, c); }
  }

  /** Deltas of successful flushes telescope to the last flushed snapshot. */
  lemma {:induction false} DeltasTelescope(h: History, c: Counter)
    requires Monotone(h)
    ensures Total(h, c, Succeeds) == match LastFlushed(h) case Some(s) => s(c) case None => 0
  {
    if h.After? {
      DeltasTelescope(h.before, c);
      if LastFlushed(h.before).Some? { LastBelow(h.before, c); }
    }
  }

  predicate ReportedLost(f: Flush) {
    DayWritten(f) && !Succeeds(f)
  }

  lemma {:induction false} WrittenSplits(h: History, c: Counter)
    ensures Total(h, c, DayWritten) == Total(h, c, Succeeds) + Total(h, c, ReportedLost)
  {
    if h.After? { WrittenSplits(h.before, c); }
  }

  /**
   * Under any pattern of failures the daily rows grow by exactly the last successfully
   * flushed snapshot, plus whatever the store kept while reporting a failure.
   */
  lemma DailyGrowth(table: Table, h: History, first: int, n: nat, c: Counter)
    requires Within(h, first, n) && Monotone(h)
    ensures DaysFrom(Run(table, h).table, first, n, c)
         == DaysFrom(table, first, n, c) + (match LastFlushed(h) case Some(s) => s(c) case None => 0)
          + Total(h, c, ReportedLost)
  {
    DayRows(table, h, first, n, c);
    WrittenSplits(h, c);
    DeltasTelescope(h, c);
  }

  /** A failed write changes nothing, as the SQLite store's do. */
  ghost predicate Atomic(h: History) {
    h.After? ==> !h.flush.luck.day.FailedButVisible? && Atomic(h.before)
  }

  lemma {:induction false} NothingKept(h: History, c: Counter)
    requires Atomic(h)
    ensures Total(h, c, ReportedLost) == 0
  {
    if h.After? { NothingKept(h.before, c); }
  }

  /** With such a store the daily rows hold exactly what the last successful flush saw. */
  lemma DailyConservation(table: Table, h: History, first: int, n: nat, c: Counter)
    requires Within(h, first, n) && Monotone(h) && Atomic(h)
    ensures DaysFrom(Run(table, h).table, first, n, c)
         == DaysFrom(table, first, n, c) + match LastFlushed(h) case Some(s) => s(c) case None => 0
  {
    DailyGrowth(table, h, first, n, c);
    NothingKept(h, c);
  }

  function Retried(f: Flush): Flush {
    f.(luck := Luck(Stored, true, Stored, true, Stored))
  }

  /** Without that, a flush whose kept daily row is reported as lost is counted twice once it is retried. */
  lemma KeptFailureCountsTwice(table: Table, h: History, f: Flush, first: int, n: nat, c: Counter)
    requires Within(After(h, f), first, n) && ReportedLost(f)
    ensures DaysFrom(Run(table, After(After(h, f), Retried(f))).table, first, n, c)
         == DaysFrom(Run(table, h).table, first, n, c) + 2 * Delta(f.snapshot, LastFlushed(h), c)
  {
    var h1 := After(h, f);
    var h2 := After(h1, Retried(f));
    DayRows(table, h, first, n, c);
    DayRows(table, h2, first, n, c);
    assert LastFlushed(h1) == LastFlushed(h);
    assert Total(h2, c, DayWritten) == Total(h1, c, DayWritten) + Delta(f.snapshot, LastFlushed(h1), c);
    assert Total(h1, c, DayWritten) == Total(h, c, DayWritten) + Delta(f.snapshot, LastFlushed(h), c);
  }

  // ----- the aggregator and its store

  /** The statistics store; `Get` hands out a copy of the row. */
  class StatsStore {
    var table: Table

    constructor (table: Table)
      ensures this.table == table
    {
      this.table := table;
    }

    method Put(slot: Slot, row: Row, w: Write) returns (ok: bool)
      modifies this
      ensures table == Written(old(table), slot, row, w) && ok == w.Stored?
    {
      if !w.Refused? { table := table[slot := row]; }
      ok := w.Stored?;
    }
  }

  class Aggregator {
    const store: StatsStore
    var last: Option<Snapshot>

    constructor (store: StatsStore)
      ensures this.store == store && last == None
    {
      this.store, last := store, None;
    }

    function Now(): State
      reads this, store
    {
      State(store.table, last)
    }

    method AddRollup(slot: Slot, delta: Row, found: bool, w: Write) returns (ok: bool)
      modifies store
      ensures (store.table, ok) == Rollup(old(store.table), slot, delta, found, w)
    {
      if !found { return false; }
      var row: Row := if slot in store.table then store.table[slot] else map[];
      ghost var before := row;
      var todo := delta.Keys;
      while todo != {}
        invariant todo <= delta.Keys
        invariant row.Keys == before.Keys + (delta.Keys - todo)
        invariant forall c | c in row ::
          row[c] == (if c in before then before[c] else 0) + (if c in delta && c !in todo then delta[c] else 0)
        decreases todo
      {
        var c :| c in todo;
        row := row[c := (if c in row then row[c] else 0) + delta[c]];
        todo := todo - {c};
      }
      assert row == Plus(before, delta);
      ok := store.Put(slot, row, w);
    }

    /** Writes one minute bucket and updates the hourly and daily rollups. */
    method FlushOnce(f: Flush) returns (ok: bool)
      modifies this, store
      ensures Now() == Step(old(Now()), f) && ok == Succeeds(f)
    {
      var delta := DeltaRow(f.snapshot, last);
      ok := store.Put(Slot("1m", Truncate(f.now, MINUTE)), delta, f.luck.minute);
      if !ok { return; }
      ok := AddRollup(HourSlot(f.now), delta, f.luck.hourReads, f.luck.hour);
      if !ok { return; }
      ok := AddRollup(DaySlot(f.now), delta, f.luck.dayReads, f.luck.day);
      if !ok { return; }
      last := Some(f.snapshot);
    }

    /** A whole run of the aggregator. */
    method FlushAll(flushes: seq<Flush>, ghost h: History, ghost start: Table) returns (ghost after: History)
      requires Now() == Run(start, h)
      modifies this, store
      ensures after == Extended(h, flushes) && Now() == Run(start, after)
    {
      after := h;
      for i := 0 to |flushes|
        invariant Now() == Run(start, after)
        invariant Extended(after, flushes[i..]) == Extended(h, flushes)
      {
        assert flushes[i..][1..] == flushes[i + 1..];
        var _ := FlushOnce(flushes[i]);
        after := After(after, flushes[i]);
      }
    }
  }

  function Extended(h: History, flushes: seq<Flush>): History
    decreases |flushes|
  {
    if flushes == [] then h else Extended(After(h, flushes[0]), flushes[1..])
  }
}

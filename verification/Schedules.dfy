/** Weekly block schedules on wall-clock minutes with 1440-minute days; windows may wrap past midnight. */
module Schedules {
  import opened Options
  import opened DomainNames

  const DAY := 1440
  const WEEK := 10080

  /** One bit per weekday, Sunday first. */
  type DaySet = bv8

  datatype Schedule = Schedule(name: string, days: DaySet, start: nat, stop: nat, block: seq<string>)

  predicate ValidSchedule(s: Schedule) { s.start < DAY && s.stop < DAY }

  function DayFor(weekday: nat): DaySet {
    if weekday == 0 then 1 else if weekday == 1 then 2 else if weekday == 2 then 4 else if weekday == 3 then 8
    else if weekday == 4 then 16 else if weekday == 5 then 32 else 64
  }

  predicate Has(days: DaySet, weekday: nat) { days & DayFor(weekday) != 0 }

  // ----- the instant, as minutes of local time since the start of some Sunday

  function Minute(t: int): nat { t % DAY }
  function DayNumber(t: int): int { t / DAY }
  function Weekday(day: int): nat { day % 7 }

  /** The decision as the code makes it: today's window, or the part of yesterday's that wrapped. */
  predicate ActiveAt(s: Schedule, t: int) {
    var minute, today, yesterday := Minute(t), Weekday(DayNumber(t)), Weekday(DayNumber(t) - 1);
    if s.start == s.stop then Has(s.days, today)
    else if s.start < s.stop then Has(s.days, today) && minute >= s.start && minute < s.stop
    else if minute >= s.start then Has(s.days, today)
    else Has(s.days, yesterday) && minute < s.stop
  }

  // ----- what it means

  /** Minutes one window lasts; equal bounds mean the whole day. */
  function Length(s: Schedule): nat
    requires ValidSchedule(s)
  {
    if s.start == s.stop then DAY else if s.start < s.stop then s.stop - s.start else s.stop + DAY - s.start
  }

  /** The minute the window of a day begins at. */
  function WindowStart(s: Schedule, day: int): int {
    day * DAY + (if s.start == s.stop then 0 else s.start)
  }

  ghost predicate InWindow(s: Schedule, day: int, t: int)
    requires ValidSchedule(s)
  {
    WindowStart(s, day) <= t < WindowStart(s, day) + Length(s)
  }

  /** The only day whose window can contain the instant. */
  function WindowDay(s: Schedule, t: int): int {
    DayNumber(t) - (if s.start != s.stop && Minute(t) < s.start then 1 else 0)
  }

  lemma WindowDayIsUnique(s: Schedule, day: int, t: int)
    requires ValidSchedule(s)
    ensures InWindow(s, day, t) ==> day == WindowDay(s, t)
    ensures InWindow(s, WindowDay(s, t), t) <==> t - WindowStart(s, WindowDay(s, t)) < Length(s)
  {
    assert t == DayNumber(t) * DAY + Minute(t);
  }

  /** A schedule is active exactly inside the window of some day of its set, and that day is unique. */
  lemma ActiveIffInWindow(s: Schedule, t: int)
    requires ValidSchedule(s)
    ensures ActiveAt(s, t) <==> exists day :: Has(s.days, Weekday(day)) && InWindow(s, day, t)
    ensures forall a, b | InWindow(s, a, t) && InWindow(s, b, t) :: a == b
  {
    var day := WindowDay(s, t);
    assert t == DayNumber(t) * DAY + Minute(t);
    assert ActiveAt(s, t) <==> Has(s.days, Weekday(day)) && InWindow(s, day, t);
    forall d ensures InWindow(s, d, t) ==> d == day { WindowDayIsUnique(s, d, t); }
  }

  // ----- how much of a week is active

  function CountActive(s: Schedule, lo: int, hi: int): nat
    decreases hi - lo
  {
    if hi <= lo then 0 else CountActive(s, lo, hi - 1) + (if ActiveAt(s, hi - 1) then 1 else 0)
  }

  function CountDays(days: DaySet, n: nat): nat {
    if n == 0 then 0 else CountDays(days, n - 1) + (if Has(days, n - 1) then 1 else 0)
  }

  lemma {:induction false} CountSplits(s: Schedule, lo: int, mid: int, hi: int)
    requires lo <= mid <= hi
    ensures CountActive(s, lo, hi) == CountActive(s, lo, mid) + CountActive(s, mid, hi)
    decreases hi - mid
  {
    if mid < hi { CountSplits(s, lo, mid, hi - 1); }
  }

  /** Active on a prefix of the interval and nowhere else. */
  lemma {:induction false} CountPrefix(s: Schedule, lo: int, hi: int, n: nat)
    requires lo <= hi && forall t | lo <= t < hi :: ActiveAt(s, t) <==> t < lo + n
    ensures CountActive(s, lo, hi) == if n <= hi - lo then n else hi - lo
    decreases hi - lo
  {
    if lo < hi { CountPrefix(s, lo, hi - 1, n); }
  }

  lemma PeriodicWeekly(s: Schedule, t: int)
    ensures ActiveAt(s, t + WEEK) == ActiveAt(s, t)
  {
    assert t + WEEK == (t / DAY + 7) * DAY + t % DAY;
    assert DayNumber(t + WEEK) == DayNumber(t) + 7 && Minute(t + WEEK) == Minute(t);
  }

  /** Shifting a week-long interval by one minute swaps a minute for one a week later. */
  lemma ShiftWeek(s: Schedule, a: int)
    ensures CountActive(s, a + 1, a + 1 + WEEK) == CountActive(s, a, a + WEEK)
  {
    CountSplits(s, a, a + 1, a + 1 + WEEK);
    CountSplits(s, a, a + WEEK, a + 1 + WEEK);
    assert CountActive(s, a, a) == 0 && CountActive(s, a + WEEK, a + WEEK) == 0;
    assert CountActive(s, a, a + 1) == (if ActiveAt(s, a) then 1 else 0);
    assert CountActive(s, a + WEEK, a + 1 + WEEK) == (if ActiveAt(s, a + WEEK) then 1 else 0);
    PeriodicWeekly(s, a);
  }

  lemma {:induction false} WeeksAgree(s: Schedule, a: int, b: int)
    requires a <= b
    ensures CountActive(s, a, a + WEEK) == CountActive(s, b, b + WEEK)
    decreases b - a
  {
    if a < b {
      WeeksAgree(s, a, b - 1);
      ShiftWeek(s, b - 1);
    }
  }

  /** From one window start to the next, the schedule is active for a window's length or not at all. */
  lemma CountDay(s: Schedule, day: int)
    requires ValidSchedule(s)
    ensures CountActive(s, WindowStart(s, day), WindowStart(s, day + 1))
         == if Has(s.days, Weekday(day)) then Length(s) else 0
  {
    var lo, hi := WindowStart(s, day), WindowStart(s, day + 1);
    var n := if Has(s.days, Weekday(day)) then Length(s) else 0;
    forall t | lo <= t < hi ensures ActiveAt(s, t) <==> t < lo + n {
      ActiveAround(s, day, t);
    }
    CountPrefix(s, lo, hi, n);
  }

  lemma ActiveAround(s: Schedule, day: int, t: int)
    requires ValidSchedule(s) && WindowStart(s, day) <= t < WindowStart(s, day + 1)
    ensures ActiveAt(s, t) <==> Has(s.days, Weekday(day)) && t < WindowStart(s, day) + Length(s)
  {
    assert t == DayNumber(t) * DAY + Minute(t);
    assert WindowDay(s, t) == day;
    WindowDayIsUnique(s, day, t);
    assert ActiveAt(s, t) <==> Has(s.days, Weekday(day)) && InWindow(s, day, t);
  }

  /** One window length for each of the first `n` weekdays in the set. */
  function WindowTotal(days: DaySet, length: nat, n: nat): nat {
    if n == 0 then 0 else WindowTotal(days, length, n - 1) + (if Has(days, n - 1) then length else 0)
  }

  lemma {:induction false} WindowTotalIsProduct(days: DaySet, length: nat, n: nat)
    ensures WindowTotal(days, length, n) == CountDays(days, n) * length
  {
    if n > 0 { WindowTotalIsProduct(days, length, n - 1); }
  }

  lemma {:induction false} CountFirstDays(s: Schedule, n: nat)
    requires ValidSchedule(s) && n <= 7
    ensures CountActive(s, WindowStart(s, 0), WindowStart(s, n)) == WindowTotal(s.days, Length(s), n)
  {
    if n > 0 {
      CountFirstDays(s, n - 1);
      CountOneMoreDay(s, n - 1);
    }
  }

  lemma CountOneMoreDay(s: Schedule, day: nat)
    requires ValidSchedule(s) && day < 7
    ensures CountActive(s, WindowStart(s, 0), WindowStart(s, day + 1))
         == CountActive(s, WindowStart(s, 0), WindowStart(s, day)) + if Has(s.days, day) then Length(s) else 0
  {
    CountDay(s, day);
    CountSplits(s, WindowStart(s, 0), WindowStart(s, day), WindowStart(s, day + 1));
    assert Weekday(day) == day;
  }

  /** Any seven days' worth of consecutive minutes holds one window for each day of the set. */
  lemma ActiveMinutesPerWeek(s: Schedule, a: int)
    requires ValidSchedule(s)
    ensures CountActive(s, a, a + WEEK) == CountDays(s.days, 7) * Length(s)
  {
    var w := WindowStart(s, 0);
    CountFirstDays(s, 7);
    WindowTotalIsProduct(s.days, Length(s), 7);
    if a <= w { WeeksAgree(s, a, w); } else { WeeksAgree(s, w, a); }
  }

  // ----- day tokens

  /** The weekdays a token names. */
  function TokenDays(token: string): Option<set<nat>> {
    if token == "all" then Some({0, 1, 2, 3, 4, 5, 6})
    else if token == "weekday" then Some({1, 2, 3, 4, 5})
    else if token == "weekend" then Some({0, 6})
    else if token == "sun" then Some({0})
    else if token == "mon" then Some({1})
    else if token == "tue" then Some({2})
    else if token == "wed" then Some({3})
    else if token == "thu" then Some({4})
    else if token == "fri" then Some({5})
    else if token == "sat" then Some({6})
    else None
  }

  function TokenBits(token: string): DaySet {
    if token == "all" then 127
    else if token == "weekday" then 62
    else if token == "weekend" then 65
    else if token == "sun" then 1
    else if token == "mon" then 2
    else if token == "tue" then 4
    else if token == "wed" then 8
    else if token == "thu" then 16
    else if token == "fri" then 32
    else if token == "sat" then 64
    else 0
  }

  /** Their three-letter names, Sunday first. */
  const DAY_NAMES: seq<string> := ["sun", "mon", "tue", "wed", "thu", "fri", "sat"]

  /** A token is the name of a day, or stands for every day, for Monday to Friday, or for Saturday and Sunday. */
  lemma TokensMean(token: string, weekday: nat)
    requires weekday < 7
    ensures TokenDays(token).Some? <==> token in DAY_NAMES || token in {"all", "weekday", "weekend"}
    ensures TokenDays(token).Some? ==>
      (weekday in TokenDays(token).value <==>
        || token == DAY_NAMES[weekday] || token == "all"
        || (token == "weekday" && 1 <= weekday <= 5) || (token == "weekend" && (weekday == 0 || weekday == 6)))
  {
    assert |DAY_NAMES| == 7;
    assert token in DAY_NAMES <==> exists i | 0 <= i < 7 :: DAY_NAMES[i] == token;
  }

  ghost predicate Names(lib: Library, raw: seq<string>, weekday: nat) {
    exists i | 0 <= i < |raw| :: NamesAt(lib, raw[i], weekday)
  }

  ghost predicate NamesAt(lib: Library, token: string, weekday: nat) {
    TokenDays(ToLower(lib, token)).Some? && weekday in TokenDays(ToLower(lib, token)).value
  }

  lemma BitsAreDays(token: string, weekday: nat)
    requires weekday < 7 && TokenDays(token).Some?
    ensures Has(TokenBits(token), weekday) <==> weekday in TokenDays(token).value
  {
  }

  lemma HasUnion(a: DaySet, b: DaySet, weekday: nat)
    ensures Has(a | b, weekday) <==> Has(a, weekday) || Has(b, weekday)
  {
  }

  lemma NamesOneMore(lib: Library, raw: seq<string>, i: nat, weekday: nat)
    requires i < |raw|
    ensures Names(lib, raw[..i + 1], weekday) <==> Names(lib, raw[..i], weekday) || NamesAt(lib, raw[i], weekday)
  {
    var a, b := raw[..i], raw[..i + 1];
    assert b == a + [raw[i]];
    if Names(lib, a, weekday) {
      var k :| 0 <= k < |a| && NamesAt(lib, a[k], weekday);
      assert b[k] == a[k];
    }
    if NamesAt(lib, raw[i], weekday) { assert b[i] == raw[i]; }
  }

  lemma NonzeroUnion(a: DaySet, b: DaySet)
    requires b != 0
    ensures a | b != 0
  {
  }

  /** The union of what the tokens name, unless one is unknown. */
  function DayBits(lib: Library, raw: seq<string>): Option<DaySet> {
    if raw == [] then Some(0)
    else
      var token := ToLower(lib, raw[|raw| - 1]);
      match DayBits(lib, raw[..|raw| - 1])
      case None => None
      case Some(bits) => if TokenDays(token).None? then None else Some(bits | TokenBits(token))
  }

  function ParsedDays(lib: Library, raw: seq<string>): Option<DaySet> {
    var bits := DayBits(lib, raw);
    if bits == Some(0) then None else bits
  }

  ghost predicate AllKnown(lib: Library, raw: seq<string>) {
    forall i | 0 <= i < |raw| :: TokenDays(ToLower(lib, raw[i])).Some?
  }

  lemma {:induction false} BitsMeaning(lib: Library, raw: seq<string>)
    ensures DayBits(lib, raw).Some? <==> AllKnown(lib, raw)
    ensures DayBits(lib, raw).Some? ==>
      && (DayBits(lib, raw).value != 0 <==> raw != [])
      && forall weekday: nat | weekday < 7 :: Has(DayBits(lib, raw).value, weekday) <==> Names(lib, raw, weekday)
  {
    if raw != [] {
      var n := |raw| - 1;
      var before, token := raw[..n], ToLower(lib, raw[n]);
      BitsMeaning(lib, before);
      KnownOneMore(lib, raw);
      if DayBits(lib, raw).Some? {
        var bits, more := DayBits(lib, before).value, TokenBits(token);
        NonzeroUnion(bits, more);
        assert raw[..n + 1] == raw;
        forall weekday: nat | weekday < 7 ensures Has(bits | more, weekday) <==> Names(lib, raw, weekday) {
          NamesOneMore(lib, raw, n, weekday);
          HasUnion(bits, more, weekday);
          BitsAreDays(token, weekday);
        }
      }
    }
  }

  lemma KnownOneMore(lib: Library, raw: seq<string>)
    requires raw != []
    ensures AllKnown(lib, raw) <==> AllKnown(lib, raw[..|raw| - 1]) && TokenDays(ToLower(lib, raw[|raw| - 1])).Some?
  {
    assert forall i | 0 <= i < |raw| - 1 :: raw[..|raw| - 1][i] == raw[i];
  }

  /** The days named by the tokens, or an error when a token is unknown or none is named. */
  method ParseDays(lib: Library, raw: seq<string>) returns (days: Option<DaySet>)
    ensures days == ParsedDays(lib, raw)
    ensures days.Some? <==> raw != [] && AllKnown(lib, raw)
    ensures days.Some? ==> forall weekday: nat | weekday < 7 :: Has(days.value, weekday) <==> Names(lib, raw, weekday)
  {
    BitsMeaning(lib, raw);
    var bits: DaySet := 0;
    for i := 0 to |raw|
      invariant DayBits(lib, raw[..i]) == Some(bits)
    {
      assert raw[..i + 1][..i] == raw[..i];
      var token := ToLower(lib, raw[i]);
      if TokenDays(token).None? {
        assert !AllKnown(lib, raw);
        return None;
      }
      bits := bits | TokenBits(token);
    }
    assert raw[..|raw|] == raw;
    if bits == 0 { return None; }
    return Some(bits);
  }

  // ----- compiling schedules

  datatype RawSchedule = RawSchedule(name: string, days: seq<string>, start: string, stop: string, block: seq<string>)

  function Compiled(lib: Library, raw: RawSchedule): Option<Schedule> {
    var days, start, stop := ParsedDays(lib, raw.days), lib.parseClock(raw.start), lib.parseClock(raw.stop);
    if days.None? || start.None? || stop.None? then None
    else Some(Schedule(raw.name, days.value, start.value, stop.value, raw.block))
  }

  /** A schedule, or an error when its days or one of its times do not parse. */
  method CompileSchedule(lib: Library, raw: RawSchedule) returns (s: Option<Schedule>)
    ensures s == Compiled(lib, raw)
    ensures s.Some? <==>
      raw.days != [] && AllKnown(lib, raw.days) && lib.parseClock(raw.start).Some? && lib.parseClock(raw.stop).Some?
    ensures s.Some? ==> ValidSchedule(s.value) && forall weekday: nat | weekday < 7 ::
      Has(s.value.days, weekday) <==> Names(lib, raw.days, weekday)
    ensures s.Some? ==>
      && s.value.name == raw.name && s.value.block == raw.block
      && lib.parseClock(raw.start) == Some(s.value.start) && lib.parseClock(raw.stop) == Some(s.value.stop)
  {
    var days := ParseDays(lib, raw.days);
    if days.None? { return None; }
    var start := lib.parseClock(raw.start);
    if start.None? { return None; }
    var stop := lib.parseClock(raw.stop);
    if stop.None? { return None; }
    return Some(Schedule(raw.name, days.value, start.value, stop.value, raw.block));
  }

  /** Every schedule in order, or nothing when one of them does not compile. */
  function AllCompiled(lib: Library, raws: seq<RawSchedule>): (r: Option<seq<Schedule>>)
    ensures r.Some? ==> |r.value| == |raws|
  {
    if raws == [] then Some([])
    else
      var last := Compiled(lib, raws[|raws| - 1]);
      match AllCompiled(lib, raws[..|raws| - 1])
      case None => None
      case Some(before) => if last.None? then None else Some(before + [last.value])
  }

  lemma {:induction false} AllCompiledAt(lib: Library, raws: seq<RawSchedule>, i: nat)
    requires AllCompiled(lib, raws).Some? && i < |raws|
    ensures Compiled(lib, raws[i]) == Some(AllCompiled(lib, raws).value[i])
  {
    if i < |raws| - 1 { AllCompiledAt(lib, raws[..|raws| - 1], i); }
  }

  method CompileSchedules(lib: Library, raws: seq<RawSchedule>) returns (schedules: Option<seq<Schedule>>)
    ensures schedules == AllCompiled(lib, raws)
  {
    var out := [];
    for i := 0 to |raws|
      invariant AllCompiled(lib, raws[..i]) == Some(out)
    {
      assert raws[..i + 1][..i] == raws[..i];
      var s := CompileSchedule(lib, raws[i]);
      if s.None? {
        if AllCompiled(lib, raws).Some? { AllCompiledAt(lib, raws, i); }
        return None;
      }
      out := out + [s.value];
    }
    assert raws[..|raws|] == raws;
    return Some(out);
  }
}

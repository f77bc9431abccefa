/**
 * Decimal bucket names and the order of statistics rows (`sortStatsRows` in internal/store/sqlite.go, `List` in
 * internal/store/file.go).
 */
module StatsBuckets {
  import opened Options
  import opened Ordering

  datatype StatsRow = StatsRow(bucket: string, counters: map<string, nat>)

  predicate Digits(s: string) {
    s != "" && forall i | 0 <= i < |s| :: '0' <= s[i] <= '9'
  }

  function Value(s: string): (v: nat)
    requires forall i | 0 <= i < |s| :: '0' <= s[i] <= '9'
  {
    if s == "" then 0 else Value(s[..|s| - 1]) * 10 + (s[|s| - 1] - '0') as int
  }

  const MIN_INT64: int := -0x8000_0000_0000_0000
  const MAX_INT64: int := 0x7fff_ffff_ffff_ffff

  predicate Signed(s: string) {
    s != "" && (s[0] == '-' || s[0] == '+')
  }

  /** strconv.ParseInt with base 10 and 64 bits. */
  function ParseInt(s: string): Option<int> {
    var body := if Signed(s) then s[1..] else s;
    if !Digits(body) then None
    else
      var v: int := if s[0] == '-' then -(Value(body) as int) else Value(body);
      if MIN_INT64 <= v <= MAX_INT64 then Some(v) else None
  }

  /** The texts strconv.FormatInt produces. */
  predicate Canonical(s: string) {
    ParseInt(s).Some? && (s == "0" || (s[0] != '+' && (if s[0] == '-' then s[1..] else s)[0] != '0'))
  }

  lemma {:induction false} LongIsLarge(s: string)
    requires Digits(s) && s[0] != '0'
    ensures Value(s) >= if |s| >= 2 then 10 else 1
  {
    if |s| >= 2 { LongIsLarge(s[..|s| - 1]); }
  }

  lemma {:induction false} ValueInjective(a: string, b: string)
    requires Digits(a) && Digits(b) && (a == "0" || a[0] != '0') && (b == "0" || b[0] != '0')
    requires Value(a) == Value(b)
    ensures a == b
  {
    if a[0] != '0' { LongIsLarge(a); }
    if b[0] != '0' { LongIsLarge(b); }
    var a', b' := a[..|a| - 1], b[..|b| - 1];
    assert a == a' + [a[|a| - 1]] && b == b' + [b[|b| - 1]];
    assert Value(a') == Value(a) / 10 && Value(b') == Value(b) / 10;
    if |a| >= 2 && |b| >= 2 {
      ValueInjective(a', b');
    }
  }

  /** Two canonical texts of one number are the same text. */
  lemma CanonicalInjective(a: string, b: string)
    requires Canonical(a) && Canonical(b) && ParseInt(a) == ParseInt(b)
    ensures a == b
  {
    var x, y := if a[0] == '-' then a[1..] else a, if b[0] == '-' then b[1..] else b;
    if x[0] != '0' { LongIsLarge(x); }
    if y[0] != '0' { LongIsLarge(y); }
    if (a[0] == '-') == (b[0] == '-') {
      ValueInjective(x, y);
      if a[0] == '-' { assert a == ['-'] + x && b == ['-'] + y; }
    }
  }

  /** By number where both names are numbers, by text otherwise. */
  predicate BucketBefore(a: StatsRow, b: StatsRow) {
    var x, y := ParseInt(a.bucket), ParseInt(b.bucket);
    if x.Some? && y.Some? then x.value < y.value else Less(a.bucket, b.bucket)
  }

  /** No two rows share a bucket, and every bucket is a number. */
  ghost predicate DistinctBuckets(rows: seq<StatsRow>) {
    && (forall r | r in rows :: Canonical(r.bucket))
    && (forall a, b | a in rows && b in rows && a.bucket == b.bucket :: a == b)
  }

  predicate IsNumber(s: string) {
    ParseInt(s).Some?
  }

  /** Two different rows with the same bucket, or with the same number. */
  predicate Ties(a: StatsRow, b: StatsRow) {
    a != b && (a.bucket == b.bucket || (IsNumber(a.bucket) && ParseInt(a.bucket) == ParseInt(b.bucket)))
  }

  /** Two numbers in order, and between them as texts, the other way round, a name that is no number. */
  predicate Straddles(a: StatsRow, b: StatsRow, z: StatsRow) {
    && IsNumber(a.bucket) && IsNumber(b.bucket) && !IsNumber(z.bucket)
    && ParseInt(a.bucket).value < ParseInt(b.bucket).value && Less(b.bucket, z.bucket) && Less(z.bucket, a.bucket)
  }

  ghost predicate Orderable(rows: seq<StatsRow>) {
    && (forall a, b | a in rows && b in rows :: !Ties(a, b))
    && (forall a, b, z | a in rows && b in rows && z in rows :: !Straddles(a, b, z))
  }

  lemma NeverBothBefore(a: StatsRow, b: StatsRow)
    ensures !(BucketBefore(a, b) && BucketBefore(b, a))
  {
    LessAsymmetric(a.bucket, b.bucket);
  }

  lemma Comparable(a: StatsRow, b: StatsRow)
    ensures a == b || Ties(a, b) || BucketBefore(a, b) || BucketBefore(b, a)
  {
    LessTotal(a.bucket, b.bucket);
  }

  /** Without ties and straddling, what is before `b` is before or behind any third row. */
  lemma Between(a: StatsRow, b: StatsRow, z: StatsRow)
    requires BucketBefore(a, b) && !Ties(a, z) && !Ties(z, b)
    requires !Straddles(a, b, z) && !Straddles(b, z, a) && !Straddles(z, a, b)
    ensures BucketBefore(a, z) || BucketBefore(z, b)
  {
    LessTotal(a.bucket, z.bucket);
    LessTotal(z.bucket, b.bucket);
    if Less(z.bucket, a.bucket) && Less(a.bucket, b.bucket) { LessTransitive(z.bucket, a.bucket, b.bucket); }
    if Less(b.bucket, z.bucket) && Less(z.bucket, a.bucket) { LessTransitive(b.bucket, z.bucket, a.bucket); }
    if Less(a.bucket, b.bucket) && Less(b.bucket, z.bucket) { LessTransitive(a.bucket, b.bucket, z.bucket); }
  }

  lemma TiedAreIncomparable(a: StatsRow, b: StatsRow)
    requires Ties(a, b)
    ensures !BucketBefore(a, b) && !BucketBefore(b, a)
  {
    LessIrreflexive(a.bucket);
  }

  /** The comparator is a strict total order on rows exactly when no two tie and no name straddles two numbers. */
  lemma OrderTotalIff(rows: seq<StatsRow>)
    ensures StrictTotalOn(BucketBefore, rows) <==> Orderable(rows)
  {
    if Orderable(rows) {
      forall a, b | a in rows && b in rows
        ensures !(BucketBefore(a, b) && BucketBefore(b, a))
        ensures a == b || BucketBefore(a, b) || BucketBefore(b, a)
      {
        NeverBothBefore(a, b);
        Comparable(a, b);
      }
      forall a, b, z | a in rows && b in rows && z in rows && BucketBefore(a, b)
        ensures BucketBefore(a, z) || BucketBefore(z, b)
      {
        Between(a, b, z);
      }
    }
    if StrictTotalOn(BucketBefore, rows) {
      forall a, b | a in rows && b in rows ensures !Ties(a, b) {
        if Ties(a, b) { TiedAreIncomparable(a, b); }
      }
      forall a, b, z | a in rows && b in rows && z in rows ensures !Straddles(a, b, z) {
        if Straddles(a, b, z) {
          NeverBothBefore(b, z);
          NeverBothBefore(z, a);
        }
      }
    }
  }

  /** In particular decimal buckets always have one ... */
  lemma BucketOrderIsTotal(rows: seq<StatsRow>)
    requires DistinctBuckets(rows)
    ensures StrictTotalOn(BucketBefore, rows)
  {
    forall a, b | a in rows && b in rows ensures !Ties(a, b) {
      if ParseInt(a.bucket) == ParseInt(b.bucket) { CanonicalInjective(a.bucket, b.bucket); }
    }
    OrderTotalIff(rows);
  }

  /** ... and a straddling name makes the comparator go round in a circle. */
  lemma StraddlingCycles(a: StatsRow, b: StatsRow, z: StatsRow)
    requires Straddles(a, b, z)
    ensures BucketBefore(a, b) && BucketBefore(b, z) && BucketBefore(z, a)
  {
  }

  lemma MixedBucketsCycle(c: map<string, nat>)
    ensures Straddles(StatsRow("9", c), StatsRow("10", c), StatsRow("1x", c))
  {
    assert Value("9") == 9 by { assert "9"[..0] == ""; }
    assert Value("10") == 10 by { assert "10"[..1] == "1" && "1"[..0] == ""; }
    assert !Digits("1x") by { assert "1x"[1] == 'x'; }
    assert Less("10", "1x") by { assert "10"[1..] == "0" && "1x"[1..] == "x"; }
    assert Less("1x", "9");
  }
}

/**
 * The two store backends as objects that are updated in place (internal/store/file.go and
 * internal/store/sqlite.go).
 */
module Stores {
  import opened Options
  import opened Ordering
  import opened StoreKeys
  import opened StatsBuckets
  import opened StorePayloads
  import opened StoreSpec

  /** Goes through a set in some order, as ranging over a map or scanning a table does. */
  method Collect<K, V>(keys: set<K>, f: K --> V) returns (rows: seq<V>)
    requires forall k | k in keys :: f.requires(k)
    requires forall a, b | a in keys && b in keys && f(a) == f(b) :: a == b
    ensures NoDuplicates(rows)
    ensures forall v :: v in rows <==> exists k | k in keys :: f(k) == v
  {
    rows := [];
    var rest := keys;
    while rest != {}
      invariant rest <= keys && NoDuplicates(rows)
      invariant forall v :: v in rows <==> exists k | k in keys && k !in rest :: f(k) == v
    {
      var k :| k in rest;
      forall v ensures v in rows + [f(k)] <==> exists j | j in keys && j !in rest - {k} :: f(j) == v {
        if v == f(k) { assert k !in rest - {k}; }
        if v in rows { var j :| j in keys && j !in rest && f(j) == v; assert j !in rest - {k}; }
      }
      assert f(k) !in rows;
      rows := rows + [f(k)];
      rest := rest - {k};
    }
  }

  lemma ClientOrderIsTotal(rows: seq<Client>)
    requires forall a, b | a in rows && b in rows && a.key == b.key :: a == b
    ensures StrictTotalOn(ClientBefore, rows)
  {
    forall a, b | a in rows && b in rows
      ensures !(ClientBefore(a, b) && ClientBefore(b, a))
      ensures a == b || ClientBefore(a, b) || ClientBefore(b, a)
    {
      LessTotal(a.key, b.key);
      if Less(a.key, b.key) && Less(b.key, a.key) { LessTransitive(a.key, b.key, a.key); LessIrreflexive(a.key); }
    }
    forall a, b, c | a in rows && b in rows && c in rows && ClientBefore(a, b)
      ensures ClientBefore(a, c) || ClientBefore(c, b)
    {
      LessTotal(a.key, c.key);
      if Less(c.key, a.key) { LessTransitive(c.key, a.key, b.key); }
    }
  }

  method SortClients(rows: seq<Client>, ghost all: set<Client>) returns (sorted: seq<Client>)
    requires NoDuplicates(rows) && (forall c :: c in rows <==> c in all)
    requires forall a, b | a in all && b in all && a.key == b.key :: a == b
    ensures sorted == Listing(all, ClientBefore)
  {
    ClientOrderIsTotal(rows);
    SortIsListing(rows, all, ClientBefore);
    sorted := Sort(rows, ClientBefore);
  }

  method SortDomains(rows: seq<string>, ghost all: set<string>) returns (sorted: seq<string>)
    requires NoDuplicates(rows) && (forall d :: d in rows <==> d in all)
    ensures sorted == Listing(all, Less)
  {
    LessIsStrictTotal(rows);
    SortIsListing(rows, all, Less);
    sorted := Sort(rows, Less);
  }

  /** Each row is found as often as it is held outside `rest`. */
  ghost predicate FoundBut(found: seq<StatsRow>, rows: map<string, StatsRow>, rest: set<string>) {
    forall r :: multiset(found)[r] == |Holding(rows, r) - rest|
  }

  lemma OneMoreFound(found: seq<StatsRow>, rows: map<string, StatsRow>, rest: set<string>, b: string)
    requires FoundBut(found, rows, rest) && b in rest && b in rows
    ensures FoundBut(found + [rows[b]], rows, rest - {b})
  {
    forall r ensures multiset(found + [rows[b]])[r] == |Holding(rows, r) - (rest - {b})| {
      OneMoreHolds(Holding(rows, r), rest, b);
    }
  }

  method CollectRows(rows: map<string, StatsRow>) returns (found: seq<StatsRow>)
    ensures forall r :: multiset(found)[r] == |Holding(rows, r)|
  {
    found := [];
    var rest := rows.Keys;
    assert FoundBut(found, rows, rest) by {
      forall r ensures Holding(rows, r) - rest == {} {}
    }
    while rest != {}
      invariant rest <= rows.Keys && FoundBut(found, rows, rest)
    {
      var b :| b in rest;
      OneMoreFound(found, rows, rest, b);
      found := found + [rows[b]];
      rest := rest - {b};
    }
    forall r ensures Holding(rows, r) - rest == Holding(rows, r) {}
  }

  /** Collects the rows in some order and sorts them as sort.Slice does. */
  method ListRows(rows: map<string, StatsRow>) returns (listed: seq<StatsRow>)
    ensures Lists(listed, rows)
  {
    var found := CollectRows(rows);
    listed := Sort(found, BucketBefore);
    SortedIfWeak(found);
  }

  lemma SortedIfWeak(found: seq<StatsRow>)
    ensures StrictWeakOn(BucketBefore, Sort(found, BucketBefore)) ==> SortedBy(Sort(found, BucketBefore), BucketBefore)
  {
    var listed := Sort(found, BucketBefore);
    if StrictWeakOn(BucketBefore, listed) {
      SameElements(listed, found);
      SortSorts(found, BucketBefore);
    }
  }

  lemma OneMoreHolds(held: set<string>, rest: set<string>, b: string)
    requires b in rest
    ensures |held - (rest - {b})| == |held - rest| + if b in held then 1 else 0
  {
    assert held - (rest - {b}) == held - rest + if b in held then {b} else {};
  }

  // ----- the JSON store

  lemma SameAsItself(lay: Layout, data: Flat)
    ensures SameRows(lay, data, data)
  {
  }

  /** Regular operations keep payloads fitting their keys. */
  lemma JsonKeepsForm(lay: Layout, data: Flat, op: Op)
    requires Lawful(lay) && WellFormed(lay, data) && Regular(op)
    ensures WellFormed(lay, JsonStep(lay, data, op).0)
  {
    SameAsItself(lay, data);
    match op
    case UpsertClient(c) =>
      assert NameLaw(lay, c.key);
      PutBoth(lay, data, data, lay.clientKey(c.key), ClientValue(c));
    case DeleteClient(k) => DeleteBoth(lay, data, data, {lay.clientKey(k)}, lay.kind(lay.clientKey(k)));
    case AddDomain(p) =>
      assert PairLaw(lay, p);
      if p.first != "" && p.second != "" { PutBoth(lay, data, data, lay.listKey(p), TrueValue); }
    case RemoveDomain(p) => DeleteBoth(lay, data, data, {lay.listKey(p)}, lay.kind(lay.listKey(p)));
    case UpsertSession(s) =>
      assert NameLaw(lay, s.token);
      PutBoth(lay, data, data, lay.sessionKey(s.token), SessionValue(s));
    case DeleteSession(t) => DeleteBoth(lay, data, data, {lay.sessionKey(t)}, lay.kind(lay.sessionKey(t)));
    case DeleteExpired(now) => DeleteBoth(lay, data, data, ExpiredKeys(lay, data, now), SessionKind);
    case PutStats(p, row) =>
      assert PairLaw(lay, p);
      if p.first != "" && p.second != "" { PutBoth(lay, data, data, lay.statsKey(p), StatsValue(StoredRow(p, row))); }
    case _ =>
  }

  /**
   * What every operation keeps, regular or not: payloads have the type of their collection, clients are under their
   * own key and sessions under their own token.
   */
  predicate TypedAt(lay: Layout, data: Flat, key: string) {
    key in data ==>
      match lay.kind(key)
      case ClientKind => data[key].ClientValue? && data[key].client.key == lay.clientOf(key)
      case SessionKind => data[key].SessionValue? && data[key].session.token == lay.sessionOf(key)
      case StatsKind => data[key].StatsValue?
      case _ => true
  }

  ghost predicate Typed(lay: Layout, data: Flat) {
    forall key {:trigger TypedAt(lay, data, key)} :: TypedAt(lay, data, key)
  }

  lemma PutKeepsTyped(lay: Layout, data: Flat, key: string, value: Value)
    requires Typed(lay, data) && TypedAt(lay, map[key := value], key)
    ensures Typed(lay, data[key := value])
  {
    var after := data[key := value];
    forall k ensures TypedAt(lay, after, k) { assert TypedAt(lay, data, k); }
  }

  lemma DeleteKeepsTyped(lay: Layout, data: Flat, keys: set<string>)
    requires Typed(lay, data)
    ensures Typed(lay, data - keys)
  {
    var after := data - keys;
    forall k ensures TypedAt(lay, after, k) { assert TypedAt(lay, data, k); }
  }

  lemma JsonKeepsTyped(lay: Layout, data: Flat, op: Op)
    requires Lawful(lay) && Typed(lay, data)
    ensures Typed(lay, JsonStep(lay, data, op).0)
  {
    match op
    case UpsertClient(c) =>
      assert NameLaw(lay, c.key);
      PutKeepsTyped(lay, data, lay.clientKey(c.key), ClientValue(c));
    case DeleteClient(k) => DeleteKeepsTyped(lay, data, {lay.clientKey(k)});
    case AddDomain(p) =>
      assert PairLaw(lay, p);
      PutKeepsTyped(lay, data, lay.listKey(p), TrueValue);
    case RemoveDomain(p) => DeleteKeepsTyped(lay, data, {lay.listKey(p)});
    case UpsertSession(s) =>
      assert NameLaw(lay, s.token);
      PutKeepsTyped(lay, data, lay.sessionKey(s.token), SessionValue(s));
    case DeleteSession(t) => DeleteKeepsTyped(lay, data, {lay.sessionKey(t)});
    case DeleteExpired(now) => DeleteKeepsTyped(lay, data, ExpiredKeys(lay, data, now));
    case PutStats(p, row) =>
      assert PairLaw(lay, p);
      PutKeepsTyped(lay, data, lay.statsKey(p), StatsValue(StoredRow(p, row)));
    case _ =>
  }

  /** Different client keys hold different clients. */
  lemma ClientsApart(lay: Layout, data: Flat, a: string, b: string)
    requires Lawful(lay) && Typed(lay, data) && a in data && b in data
    requires lay.kind(a) == lay.kind(b) == ClientKind && data[a].ClientValue? && data[b].ClientValue?
    requires data[a].client.key == data[b].client.key
    ensures a == b
  {
    assert TypedAt(lay, data, a) && TypedAt(lay, data, b) && KeyLaw(lay, a) && KeyLaw(lay, b);
  }

  /** Different keys under one prefix go on differently. */
  lemma DomainsApart(lay: Layout, l: string, a: string, b: string)
    requires Lawful(lay) && lay.inList(l, a) && lay.inList(l, b) && lay.domainIn(l, a) == lay.domainIn(l, b)
    ensures a == b
  {
    assert PrefixLaw(lay, l, a) && PrefixLaw(lay, l, b);
  }

  /** What an operation on one of the stores shows: its result and, for statistics rows, their order. */
  datatype Seen = Seen(result: Result, listed: seq<StatsRow>)

  ghost predicate Shows(seen: Seen, result: Result) {
    seen.result == result && (result.StatsAre? ==> Lists(seen.listed, result.rows))
  }

  class FileStore {
    const lay: Layout
    var data: Flat

    ghost predicate Valid()
      reads this
    {
      Lawful(lay) && Typed(lay, data)
    }

    constructor (lay: Layout)
      requires Lawful(lay)
      ensures Valid() && this.lay == lay && data == map[]
    {
      this.lay, data := lay, map[];
    }

    method ListClients() returns (r: Result)
      requires Valid()
      ensures r == JsonStep(lay, data, Op.ListClients).1
    {
      var rows := data;
      var keys := set key | key in rows && lay.kind(key) == ClientKind && rows[key].ClientValue?;
      forall a, b | a in keys && b in keys && rows[a].client.key == rows[b].client.key ensures a == b {
        ClientsApart(lay, rows, a, b);
      }
      var found := Collect(keys, key requires key in rows && rows[key].ClientValue? => rows[key].client);
      var sorted := SortClients(found, ClientsIn(lay, rows));
      return ClientsAre(sorted);
    }

    method ListDomains(l: string) returns (r: Result)
      requires Valid()
      ensures r == JsonStep(lay, data, Op.ListDomains(l)).1
    {
      var rows, lay := data, lay;
      var keys := set key | key in rows && lay.inList(l, key);
      forall a, b | a in keys && b in keys && lay.domainIn(l, a) == lay.domainIn(l, b) ensures a == b {
        DomainsApart(lay, l, a, b);
      }
      var found := Collect(keys, key => lay.domainIn(l, key));
      var sorted := SortDomains(found, DomainsIn(lay, rows, l));
      return DomainsAre(sorted);
    }

    method ListStats(g: string) returns (seen: Seen)
      ensures Shows(seen, JsonStep(lay, data, Op.ListStats(g)).1)
    {
      var rows := StatsIn(lay, data, g);
      var listed := ListRows(rows);
      assert JsonStep(lay, data, Op.ListStats(g)).1 == StatsAre(rows);
      return Seen(StatsAre(rows), listed);
    }

    method DeleteExpired(now: int)
      requires Valid()
      modifies this
      ensures data == old(data) - ExpiredKeys(lay, old(data), now)
    {
      var rows := data;
      var rest := rows.Keys;
      while rest != {}
        invariant rest <= rows.Keys
        invariant data == rows - (ExpiredKeys(lay, rows, now) - rest)
      {
        var key :| key in rest;
        rest := rest - {key};
        if lay.kind(key) == SessionKind && rows[key].SessionValue? {
          var s := rows[key].session;
          if s.expiresAt != 0 && s.expiresAt < now { data := data - {key}; }
        }
      }
    }

    method Delete(key: string) returns (r: Result)
      modifies this
      ensures (data, r) == FlatDelete(old(data), key)
    {
      if key !in data { return NotFound; }
      data := data - {key};
      return Done;
    }

    /** One operation of any of the sub-stores; regular ones keep payloads fitting their keys. */
    method Perform(op: Op) returns (seen: Seen)
      requires Valid()
      modifies this
      ensures Valid() && data == JsonStep(lay, old(data), op).0 && Shows(seen, JsonStep(lay, old(data), op).1)
      ensures old(WellFormed(lay, data)) && Regular(op) ==> WellFormed(lay, data)
    {
      JsonKeepsTyped(lay, data, op);
      if WellFormed(lay, data) && Regular(op) { JsonKeepsForm(lay, data, op); }
      if op.ListStats? { seen := ListStats(op.granularity); } else {
        var r := Apply(op);
        seen := Seen(r, []);
      }
    }

    method Apply(op: Op) returns (r: Result)
      requires Valid() && !op.ListStats?
      modifies this
      ensures (data, r) == JsonStep(lay, old(data), op)
    {
      match op
      case GetClient(k) =>
        var key := lay.clientKey(k);
        r := if key !in data then NotFound else if data[key].ClientValue? then ClientIs(data[key].client)
          else Malformed;
      case ListClients => r := ListClients();
      case UpsertClient(c) =>
        if c.key == "" { return Required; }
        data, r := data[lay.clientKey(c.key) := ClientValue(c)], Done;
      case DeleteClient(k) => r := Delete(lay.clientKey(k));
      case AddDomain(p) =>
        if p.first == "" || p.second == "" { return Required; }
        data, r := data[lay.listKey(p) := TrueValue], Done;
      case RemoveDomain(p) => r := Delete(lay.listKey(p));
      case ListDomains(l) => r := ListDomains(l);
      case GetSession(t) =>
        var key := lay.sessionKey(t);
        r := if key !in data then NotFound else if data[key].SessionValue? then SessionIs(data[key].session)
          else Malformed;
      case UpsertSession(s) =>
        if s.token == "" { return Required; }
        data, r := data[lay.sessionKey(s.token) := SessionValue(s)], Done;
      case DeleteSession(t) => r := Delete(lay.sessionKey(t));
      case DeleteExpired(now) => DeleteExpired(now); r := Done;
      case PutStats(p, row) =>
        if p.first == "" || p.second == "" { return Required; }
        data, r := data[lay.statsKey(p) := StatsValue(row.(bucket := p.second))], Done;
      case GetStats(p) =>
        var key := lay.statsKey(p);
        r := if key !in data then NotFound else if data[key].StatsValue? then StatsIs(data[key].row) else Malformed;
    }
  }

  // ----- the SQLite store

  /** Each client is stored under its own key and each session under its own token, whatever was done to the tables. */
  predicate Keyed(db: Db) {
    && (forall k | k in db.clients :: db.clients[k].key == k)
    && (forall t | t in db.sessions :: db.sessions[t].token == t)
  }

  /** `SELECT domain ... WHERE list_id = ? ORDER BY domain`. */
  method SelectDomains(table: set<Pair>, l: string) returns (sorted: seq<string>)
    ensures sorted == Listing(TableDomains(table, l), Less)
  {
    var rows := set p | p in table && p.first == l;
    var found := Collect(rows, (p: Pair) => p.second);
    forall d ensures d in found <==> d in TableDomains(table, l) {
      if d in TableDomains(table, l) { assert Pair(l, d) in rows; }
    }
    sorted := SortDomains(found, TableDomains(table, l));
  }

  class SqliteStore {
    const lay: Layout
    var kv: map<string, Tagged>
    var clients: map<string, Client>
    var sessions: map<string, Session>
    var lists: set<Pair>
    var stats: map<Pair, Counters>

    function Now(): Db
      reads this
    {
      Db(kv, clients, sessions, lists, stats)
    }

    ghost predicate Valid()
      reads this
    {
      Lawful(lay) && Keyed(Now())
    }

    /** The tables mirror the kv rows, whose payloads fit their keys. */
    ghost predicate Mirrored()
      reads this
    {
      Related(lay, Rows(Now()), Rows(Now()), Now())
    }

    constructor (lay: Layout)
      requires Lawful(lay)
      ensures Valid() && Mirrored() && this.lay == lay && Now() == EmptyDb()
    {
      this.lay := lay;
      kv, clients, sessions, lists, stats := map[], map[], map[], {}, map[];
      new;
      EmptyStoresRelated(lay);
      SameAsItself(lay, map[]);
    }

    method PutKv(key: string, value: Value)
      modifies this`kv
      ensures Now() == StoreSpec.PutKv(lay, old(Now()), key, value)
    {
      kv := kv[key := Tagged(lay.collection(key), value)];
    }

    method ListClients() returns (r: Result)
      requires Valid()
      ensures r == SqlStep(lay, Now(), Op.ListClients).1
    {
      var table := clients;
      var found := Collect(table.Keys, k requires k in table => table[k]);
      var sorted := SortClients(found, table.Values);
      return ClientsAre(sorted);
    }

    method ListDomains(l: string) returns (r: Result)
      ensures r == SqlStep(lay, Now(), Op.ListDomains(l)).1
    {
      var sorted := SelectDomains(lists, l);
      return DomainsAre(sorted);
    }

    method ListStats(g: string) returns (seen: Seen)
      ensures Shows(seen, SqlStep(lay, Now(), Op.ListStats(g)).1)
    {
      var rows := TableStats(stats, g);
      var listed := ListRows(rows);
      assert SqlStep(lay, Now(), Op.ListStats(g)).1 == StatsAre(rows);
      return Seen(StatsAre(rows), listed);
    }

    /** Selects the expired tokens, then deletes both rows of each in one transaction. */
    method DeleteExpired(now: int)
      modifies this
      ensures Now() == SqlStep(lay, old(Now()), Op.DeleteExpired(now)).0
    {
      var table := sessions;
      var tokens := set t | t in table && table[t].expiresAt != 0 && table[t].expiresAt < now;
      ghost var db := Now();
      var rest := tokens;
      while rest != {}
        invariant rest <= tokens
        invariant Now() == db.(kv := db.kv - SessionKeys(lay, tokens - rest), sessions := db.sessions - (tokens - rest))
      {
        var t :| t in rest;
        assert tokens - (rest - {t}) == tokens - rest + {t};
        assert SessionKeys(lay, tokens - rest + {t}) == SessionKeys(lay, tokens - rest) + {lay.sessionKey(t)};
        sessions := sessions - {t};
        kv := kv - {lay.sessionKey(t)};
        rest := rest - {t};
      }
      assert tokens - rest == tokens == ExpiredTokens(db, now);
    }

    method Delete(key: string) returns (r: Result)
      modifies this
      ensures (Now(), r) == SqlDelete(lay, old(Now()), key)
    {
      match lay.kind(key) {
        case ClientKind =>
          var k := lay.clientOf(key);
          if k !in clients && key !in kv { return NotFound; }
          clients := clients - {k};
        case SessionKind =>
          var t := lay.sessionOf(key);
          if t !in sessions && key !in kv { return NotFound; }
          sessions := sessions - {t};
        case ListKind =>
          var split := lay.listOf(key);
          if split.None? { return InvalidKey; }
          if split.value !in lists && key !in kv { return NotFound; }
          lists := lists - {split.value};
        case _ =>
          if key !in kv { return NotFound; }
      }
      kv := kv - {key};
      return Done;
    }

    /** One operation of any of the sub-stores; regular ones keep the mirror. */
    method Perform(op: Op) returns (seen: Seen)
      requires Valid()
      modifies this
      ensures Valid() && Now() == SqlStep(lay, old(Now()), op).0 && Shows(seen, SqlStep(lay, old(Now()), op).1)
      ensures old(Mirrored()) && Regular(op) ==> Mirrored()
    {
      StepKeeps(lay, Now(), op);
      seen := Act(op);
    }

    method Act(op: Op) returns (seen: Seen)
      requires Valid()
      modifies this
      ensures Now() == SqlStep(lay, old(Now()), op).0 && Shows(seen, SqlStep(lay, old(Now()), op).1)
    {
      if op.ListStats? { seen := ListStats(op.granularity); } else {
        var r := Apply(op);
        seen := Seen(r, []);
      }
    }

    method Apply(op: Op) returns (r: Result)
      requires Valid() && !op.ListStats?
      modifies this
      ensures (Now(), r) == SqlStep(lay, old(Now()), op)
    {
      match op
      case GetClient(k) => r := if k in clients then ClientIs(clients[k]) else NotFound;
      case ListClients => r := ListClients();
      case UpsertClient(c) =>
        if c.key == "" { return Required; }
        clients := clients[c.key := c];
        PutKv(lay.clientKey(c.key), ClientValue(c));
        r := Done;
      case DeleteClient(k) => r := Delete(lay.clientKey(k));
      case AddDomain(p) =>
        if p.first == "" || p.second == "" { return Required; }
        lists := lists + {p};
        PutKv(lay.listKey(p), TrueValue);
        r := Done;
      case RemoveDomain(p) => r := Delete(lay.listKey(p));
      case ListDomains(l) => r := ListDomains(l);
      case GetSession(t) => r := if t in sessions then SessionIs(sessions[t]) else NotFound;
      case UpsertSession(s) =>
        if s.token == "" { return Required; }
        sessions := sessions[s.token := s];
        PutKv(lay.sessionKey(s.token), SessionValue(s));
        r := Done;
      case DeleteSession(t) => r := Delete(lay.sessionKey(t));
      case DeleteExpired(now) => DeleteExpired(now); r := Done;
      case PutStats(p, row) =>
        if p.first == "" || p.second == "" { return Required; }
        stats := stats[p := row.counters];
        PutKv(lay.statsKey(p), StatsValue(row.(bucket := p.second)));
        r := Done;
      case GetStats(p) => r := if p in stats then StatsIs(StatsRow(p.second, stats[p])) else NotFound;
    }
  }

  lemma StepKeepsKeyed(lay: Layout, db: Db, op: Op)
    requires Keyed(db)
    ensures Keyed(SqlStep(lay, db, op).0)
  {
    match op
    case DeleteClient(k) => DeleteKeepsKeyed(lay, db, lay.clientKey(k));
    case RemoveDomain(p) => DeleteKeepsKeyed(lay, db, lay.listKey(p));
    case DeleteSession(t) => DeleteKeepsKeyed(lay, db, lay.sessionKey(t));
    case _ =>
  }

  lemma DeleteKeepsKeyed(lay: Layout, db: Db, key: string)
    requires Keyed(db)
    ensures Keyed(SqlDelete(lay, db, key).0)
  {
  }

  /** No operation touches a row of no table. */
  lemma OthersStand(lay: Layout, db: Db, op: Op, key: string)
    requires Lawful(lay) && lay.kind(key) == OtherKind
    ensures var kv := SqlStep(lay, db, op).0.kv;
      (key in kv <==> key in db.kv) && (key in kv ==> kv[key] == db.kv[key])
  {
    match op
    case UpsertClient(c) => assert NameLaw(lay, c.key);
    case DeleteClient(k) =>
      assert NameLaw(lay, k);
      DeleteLeavesOthers(lay, db, lay.clientKey(k), key);
    case AddDomain(p) => assert PairLaw(lay, p);
    case RemoveDomain(p) =>
      assert PairLaw(lay, p);
      DeleteLeavesOthers(lay, db, lay.listKey(p), key);
    case UpsertSession(s) => assert NameLaw(lay, s.token);
    case DeleteSession(t) =>
      assert NameLaw(lay, t);
      DeleteLeavesOthers(lay, db, lay.sessionKey(t), key);
    case DeleteExpired(now) => NoSessionKey(lay, ExpiredTokens(db, now), key);
    case PutStats(p, row) => assert PairLaw(lay, p);
    case _ =>
  }

  lemma DeleteLeavesOthers(lay: Layout, db: Db, deleted: string, key: string)
    requires deleted != key
    ensures var kv := SqlDelete(lay, db, deleted).0.kv;
      (key in kv <==> key in db.kv) && (key in kv ==> kv[key] == db.kv[key])
  {
  }

  lemma NoSessionKey(lay: Layout, tokens: set<string>, key: string)
    requires Lawful(lay) && lay.kind(key) != SessionKind
    ensures key !in SessionKeys(lay, tokens)
  {
    forall t ensures lay.sessionKey(t) != key { assert NameLaw(lay, t); }
  }

  lemma StepKeepsMirror(lay: Layout, db: Db, op: Op)
    requires Lawful(lay) && Related(lay, Rows(db), Rows(db), db) && Regular(op)
    ensures var after := SqlStep(lay, db, op).0; Related(lay, Rows(after), Rows(after), after)
  {
    var after, data := SqlStep(lay, db, op).0, JsonStep(lay, Rows(db), op).0;
    SameStep(lay, Rows(db), Rows(db), db, op);
    StillFits(lay, db, after, data, op);
    SameAsItself(lay, Rows(after));
  }

  lemma StepKeeps(lay: Layout, db: Db, op: Op)
    requires Lawful(lay) && Keyed(db)
    ensures Keyed(SqlStep(lay, db, op).0)
    ensures Related(lay, Rows(db), Rows(db), db) && Regular(op) ==>
      var after := SqlStep(lay, db, op).0; Related(lay, Rows(after), Rows(after), after)
  {
    StepKeepsKeyed(lay, db, op);
    if Related(lay, Rows(db), Rows(db), db) && Regular(op) { StepKeepsMirror(lay, db, op); }
  }

  lemma StillFits(lay: Layout, db: Db, after: Db, data: Flat, op: Op)
    requires Lawful(lay) && after == SqlStep(lay, db, op).0
    requires WellFormed(lay, Rows(db)) && WellFormed(lay, data) && SameRows(lay, data, Rows(after))
    ensures WellFormed(lay, Rows(after))
  {
    forall key ensures FitsAt(lay, Rows(after), key) {
      assert SameAt(lay, data, Rows(after), key) && FitsAt(lay, data, key) && FitsAt(lay, Rows(db), key);
      if lay.kind(key) == OtherKind { OthersStand(lay, db, op, key); }
    }
  }

  // ----- side by side

  /** Two stores show the same, statistics rows in the same order whenever they have one. */
  ghost predicate ShowSame(a: Seen, b: Seen) {
    a.result == b.result && (a.result.StatsAre? && Orderable(a.listed) ==> a.listed == b.listed)
  }

  /** The same regular operations on a JSON store and a SQLite store show the same. */
  method RunBoth(json: FileStore, sqlite: SqliteStore, ops: seq<Op>) returns (answers: seq<Seen>, others: seq<Seen>)
    requires json.Valid() && sqlite.Valid() && json.lay == sqlite.lay
    requires Related(json.lay, json.data, Rows(sqlite.Now()), sqlite.Now())
    requires forall op | op in ops :: Regular(op)
    modifies json, sqlite
    ensures json.Valid() && sqlite.Valid() && |answers| == |others| == |ops|
    ensures forall i | 0 <= i < |ops| :: ShowSame(answers[i], others[i])
    ensures Related(json.lay, json.data, Rows(sqlite.Now()), sqlite.Now())
  {
    answers, others := [], [];
    for i := 0 to |ops|
      invariant json.Valid() && sqlite.Valid() && |answers| == |others| == i
      invariant forall k | 0 <= k < i :: ShowSame(answers[k], others[k])
      invariant Related(json.lay, json.data, Rows(sqlite.Now()), sqlite.Now())
    {
      var a, b := PerformBoth(json, sqlite, ops[i]);
      answers, others := answers + [a], others + [b];
    }
  }

  method PerformBoth(json: FileStore, sqlite: SqliteStore, op: Op) returns (a: Seen, b: Seen)
    requires json.Valid() && sqlite.Valid() && json.lay == sqlite.lay && Regular(op)
    requires Related(json.lay, json.data, Rows(sqlite.Now()), sqlite.Now())
    modifies json, sqlite
    ensures json.Valid() && sqlite.Valid() && ShowSame(a, b)
    ensures Related(json.lay, json.data, Rows(sqlite.Now()), sqlite.Now())
  {
    SameStep(json.lay, json.data, Rows(sqlite.Now()), sqlite.Now(), op);
    a := json.Perform(op);
    b := sqlite.Perform(op);
    if a.result.StatsAre? && Orderable(a.listed) { ListedAlike(a.listed, b.listed, a.result.rows); }
  }
}

/**
 * The two store backends as state machines over the same operations: one flat
 * map (internal/store/file.go), and that map plus normalised tables from which
 * everything is read (internal/store/sqlite.go). A transaction is one step.
 */
module StoreSpec {
  import opened Options
  import opened Ordering
  import opened StoreKeys
  import opened StatsBuckets
  import opened StorePayloads

  type Flat = map<string, Value>

  datatype Tagged = Tagged(collection: string, value: Value)

  /** The SQLite database: the flat map with its collection column, and the tables. */
  datatype Db = Db(kv: map<string, Tagged>, clients: map<string, Client>, sessions: map<string, Session>,
                   lists: set<Pair>, stats: map<Pair, Counters>)

  datatype Op =
    | GetClient(key: string)
    | ListClients
    | UpsertClient(client: Client)
    | DeleteClient(key: string)
    | AddDomain(entry: Pair)
    | RemoveDomain(entry: Pair)
    | ListDomains(listId: string)
    | GetSession(token: string)
    | UpsertSession(session: Session)
    | DeleteSession(token: string)
    | DeleteExpired(now: int)
    | PutStats(slot: Pair, row: StatsRow)
    | GetStats(slot: Pair)
    | ListStats(granularity: string)

  datatype Result =
    | Done
    | NotFound
    | Required                       // a key, token, id, domain, granularity or bucket is missing
    | InvalidKey                     // a key that does not come apart
    | Malformed                      // a payload of another type
    | ClientIs(client: Client)
    | ClientsAre(clients: seq<Client>)
    | DomainsAre(domains: seq<string>)
    | SessionIs(session: Session)
    | StatsIs(row: StatsRow)
    | StatsAre(rows: map<string, StatsRow>)   // by the bucket in their key; see Lists for their order

  ghost function Holding(rows: map<string, StatsRow>, r: StatsRow): set<string> {
    set b | b in rows && rows[b] == r
  }

  /**
   * What callers get for a granularity: every row as often as it is held, sorted wherever the
   * comparator is fit for sorting; `sort.Slice` promises nothing where it is not.
   */
  ghost predicate Lists(listed: seq<StatsRow>, rows: map<string, StatsRow>) {
    && (forall r :: multiset(listed)[r] == |Holding(rows, r)|)
    && (StrictWeakOn(BucketBefore, listed) ==> SortedBy(listed, BucketBefore))
  }

  /** Rows that have an order at all are listed in one way only. */
  lemma ListedAlike(a: seq<StatsRow>, b: seq<StatsRow>, rows: map<string, StatsRow>)
    requires Lists(a, rows) && Lists(b, rows) && Orderable(a)
    ensures a == b
  {
    forall r ensures multiset(a)[r] == multiset(b)[r] { assert multiset(a)[r] == |Holding(rows, r)|; }
    assert multiset(a) == multiset(b);
    OrderTotalIff(a);
    SameElements(a, b);
    assert StrictWeakOn(BucketBefore, b);
    SortedUnique(a, b, BucketBefore);
  }

  /** Decimal buckets, each its row's own, have an order. */
  lemma DecimalIsOrderable(listed: seq<StatsRow>, rows: map<string, StatsRow>)
    requires Lists(listed, rows) && forall b | b in rows :: rows[b].bucket == b && Canonical(b)
    ensures Orderable(listed)
  {
    forall r | r in listed ensures r.bucket in rows && rows[r.bucket] == r {
      assert multiset(listed)[r] > 0;
      assert Holding(rows, r) != {};
      var b :| b in Holding(rows, r);
    }
    BucketOrderIsTotal(listed);
    OrderTotalIff(listed);
  }

  predicate ClientBefore(a: Client, b: Client) {
    Less(a.key, b.key)
  }

  predicate Expired(s: Session, now: int) {
    s.expiresAt != 0 && s.expiresAt < now
  }

  // ----- the JSON backend

  ghost function ClientsIn(lay: Layout, data: Flat): set<Client> {
    set key | key in data && lay.kind(key) == ClientKind && data[key].ClientValue? :: data[key].client
  }

  ghost function DomainsIn(lay: Layout, data: Flat, l: string): set<string> {
    set key | key in data && lay.inList(l, key) :: lay.domainIn(l, key)
  }

  function BucketsIn(lay: Layout, data: Flat, g: string): set<string> {
    set key | key in data && lay.inStats(g, key) :: lay.bucketIn(g, key)
  }

  function StatsIn(lay: Layout, data: Flat, g: string): map<string, StatsRow> {
    map b | b in BucketsIn(lay, data, g) && lay.statsKey(Pair(g, b)) in data
      && data[lay.statsKey(Pair(g, b))].StatsValue? ::
      data[lay.statsKey(Pair(g, b))].row
  }

  ghost function ExpiredKeys(lay: Layout, data: Flat, now: int): set<string> {
    set key | key in data && lay.kind(key) == SessionKind && data[key].SessionValue? && Expired(data[key].session, now)
  }

  function FlatDelete(data: Flat, key: string): (Flat, Result) {
    if key in data then (data - {key}, Done) else (data, NotFound)
  }

  function StoredRow(slot: Pair, row: StatsRow): StatsRow {
    row.(bucket := slot.second)
  }

  ghost function JsonStep(lay: Layout, data: Flat, op: Op): (Flat, Result) {
    match op
    case GetClient(k) =>
      var key := lay.clientKey(k);
      (data, if key !in data then NotFound else if data[key].ClientValue? then ClientIs(data[key].client)
        else Malformed)
    case ListClients => (data, ClientsAre(Listing(ClientsIn(lay, data), ClientBefore)))
    case UpsertClient(c) => if c.key == "" then (data, Required)
      else (data[lay.clientKey(c.key) := ClientValue(c)], Done)
    case DeleteClient(k) => FlatDelete(data, lay.clientKey(k))
    case AddDomain(p) =>
      if p.first == "" || p.second == "" then (data, Required) else (data[lay.listKey(p) := TrueValue], Done)
    case RemoveDomain(p) => FlatDelete(data, lay.listKey(p))
    case ListDomains(l) => (data, DomainsAre(Listing(DomainsIn(lay, data, l), Less)))
    case GetSession(t) =>
      var key := lay.sessionKey(t);
      (data, if key !in data then NotFound else if data[key].SessionValue? then SessionIs(data[key].session)
        else Malformed)
    case UpsertSession(s) =>
      if s.token == "" then (data, Required) else (data[lay.sessionKey(s.token) := SessionValue(s)], Done)
    case DeleteSession(t) => FlatDelete(data, lay.sessionKey(t))
    case DeleteExpired(now) => (data - ExpiredKeys(lay, data, now), Done)
    case PutStats(p, row) =>
      if p.first == "" || p.second == "" then (data, Required)
      else (data[lay.statsKey(p) := StatsValue(StoredRow(p, row))], Done)
    case GetStats(p) =>
      var key := lay.statsKey(p);
      (data, if key !in data then NotFound else if data[key].StatsValue? then StatsIs(data[key].row) else Malformed)
    case ListStats(g) => (data, StatsAre(StatsIn(lay, data, g)))
  }

  // ----- the SQLite backend

  function PutKv(lay: Layout, db: Db, key: string, value: Value): Db {
    db.(kv := db.kv[key := Tagged(lay.collection(key), value)])
  }

  function PutClientRow(lay: Layout, db: Db, key: string, c: Client, value: Value): Db {
    PutKv(lay, db.(clients := db.clients[c.key := c]), key, value)
  }

  function PutSessionRow(lay: Layout, db: Db, key: string, s: Session, value: Value): Db {
    PutKv(lay, db.(sessions := db.sessions[s.token := s]), key, value)
  }

  function PutListRow(lay: Layout, db: Db, key: string, p: Pair, value: Value): Db {
    PutKv(lay, db.(lists := db.lists + {p}), key, value)
  }

  function PutStatsRow(lay: Layout, db: Db, key: string, p: Pair, counters: Counters, value: Value): Db {
    PutKv(lay, db.(stats := db.stats[p := counters]), key, value)
  }

  /** Deletes both rows; an error when neither is there. */
  function SqlDelete(lay: Layout, db: Db, key: string): (Db, Result) {
    var kv := db.kv - {key};
    match lay.kind(key)
    case ClientKind =>
      var k := lay.clientOf(key);
      if k !in db.clients && key !in db.kv then (db, NotFound) else (db.(kv := kv, clients := db.clients - {k}), Done)
    case SessionKind =>
      var t := lay.sessionOf(key);
      if t !in db.sessions && key !in db.kv then (db, NotFound)
        else (db.(kv := kv, sessions := db.sessions - {t}), Done)
    case ListKind =>
      (match lay.listOf(key)
       case None => (db, InvalidKey)
       case Some(p) => if p !in db.lists && key !in db.kv then (db, NotFound)
         else (db.(kv := kv, lists := db.lists - {p}), Done))
    case _ => if key !in db.kv then (db, NotFound) else (db.(kv := kv), Done)
  }

  ghost function TableDomains(lists: set<Pair>, l: string): set<string> {
    set p | p in lists && p.first == l :: p.second
  }

  function TableStats(stats: map<Pair, Counters>, g: string): map<string, StatsRow> {
    map p | p in stats && p.first == g :: p.second := StatsRow(p.second, stats[p])
  }

  ghost function ExpiredTokens(db: Db, now: int): set<string> {
    set t | t in db.sessions && Expired(db.sessions[t], now)
  }

  ghost function SessionKeys(lay: Layout, tokens: set<string>): set<string> {
    set t | t in tokens :: lay.sessionKey(t)
  }

  ghost function SqlStep(lay: Layout, db: Db, op: Op): (Db, Result) {
    match op
    case GetClient(k) => (db, if k in db.clients then ClientIs(db.clients[k]) else NotFound)
    case ListClients => (db, ClientsAre(Listing(db.clients.Values, ClientBefore)))
    case UpsertClient(c) =>
      if c.key == "" then (db, Required) else (PutClientRow(lay, db, lay.clientKey(c.key), c, ClientValue(c)), Done)
    case DeleteClient(k) => SqlDelete(lay, db, lay.clientKey(k))
    case AddDomain(p) =>
      if p.first == "" || p.second == "" then (db, Required)
        else (PutListRow(lay, db, lay.listKey(p), p, TrueValue), Done)
    case RemoveDomain(p) => SqlDelete(lay, db, lay.listKey(p))
    case ListDomains(l) => (db, DomainsAre(Listing(TableDomains(db.lists, l), Less)))
    case GetSession(t) => (db, if t in db.sessions then SessionIs(db.sessions[t]) else NotFound)
    case UpsertSession(s) =>
      if s.token == "" then (db, Required)
      else (PutSessionRow(lay, db, lay.sessionKey(s.token), s, SessionValue(s)), Done)
    case DeleteSession(t) => SqlDelete(lay, db, lay.sessionKey(t))
    case DeleteExpired(now) =>
      var tokens := ExpiredTokens(db, now);
      (db.(kv := db.kv - SessionKeys(lay, tokens), sessions := db.sessions - tokens), Done)
    case PutStats(p, row) =>
      if p.first == "" || p.second == "" then (db, Required)
      else (PutStatsRow(lay, db, lay.statsKey(p), p, row.counters, StatsValue(StoredRow(p, row))), Done)
    case GetStats(p) => (db, if p in db.stats then StatsIs(StatsRow(p.second, db.stats[p])) else NotFound)
    case ListStats(g) => (db, StatsAre(TableStats(db.stats, g)))
  }

  // ----- what each backend keeps

  /** Rows the stores write: the payload fits the key. */
  predicate FitsKey(lay: Layout, key: string, value: Value) {
    match lay.kind(key)
    case ClientKind => value.ClientValue? && value.client.key == lay.clientOf(key)
    case SessionKind => value.SessionValue? && value.session.token == lay.sessionOf(key)
    case ListKind => lay.listOf(key).Some?
    case StatsKind => value.StatsValue? && lay.statsOf(key).Some? && value.row.bucket == lay.statsOf(key).value.second
    case OtherKind => lay.decodes(key, value)
  }

  predicate FitsAt(lay: Layout, data: Flat, key: string) {
    key in data ==> FitsKey(lay, key, data[key])
  }

  ghost predicate WellFormed(lay: Layout, data: Flat) {
    forall key {:trigger FitsAt(lay, data, key)} :: FitsAt(lay, data, key)
  }

  /** The kv rows without their collection column. */
  function Rows(db: Db): Flat {
    map key | key in db.kv :: db.kv[key].value
  }

  predicate ClientAt(lay: Layout, rows: Flat, clients: map<string, Client>, k: string) {
    var key := lay.clientKey(k);
    if k in clients then key in rows && rows[key] == ClientValue(clients[k]) else key !in rows
  }

  predicate SessionAt(lay: Layout, rows: Flat, sessions: map<string, Session>, t: string) {
    var key := lay.sessionKey(t);
    if t in sessions then key in rows && rows[key] == SessionValue(sessions[t]) else key !in rows
  }

  predicate DomainAt(lay: Layout, rows: Flat, lists: set<Pair>, p: Pair) {
    p in lists <==> Separable(p) && lay.listKey(p) in rows
  }

  predicate CountersAt(lay: Layout, rows: Flat, stats: map<Pair, Counters>, p: Pair) {
    var key := lay.statsKey(p);
    if p in stats then Separable(p) && key in rows && rows[key] == StatsValue(StatsRow(p.second, stats[p]))
    else !Separable(p) || key !in rows
  }

  /** The tables are exactly the decoding of the kv rows. */
  ghost predicate Mirrors(lay: Layout, rows: Flat, db: Db) {
    && (forall k {:trigger ClientAt(lay, rows, db.clients, k)} :: ClientAt(lay, rows, db.clients, k))
    && (forall t {:trigger SessionAt(lay, rows, db.sessions, t)} :: SessionAt(lay, rows, db.sessions, t))
    && (forall p {:trigger DomainAt(lay, rows, db.lists, p)} :: DomainAt(lay, rows, db.lists, p))
    && (forall p {:trigger CountersAt(lay, rows, db.stats, p)} :: CountersAt(lay, rows, db.stats, p))
  }

  ghost predicate Mirror(lay: Layout, db: Db) {
    Mirrors(lay, Rows(db), db)
  }

  predicate SameAt(lay: Layout, data: Flat, rows: Flat, key: string) {
    lay.kind(key) != OtherKind ==> (key in data <==> key in rows) && (key in data ==> data[key] == rows[key])
  }

  /** The two backends hold the same rows, but for rows of no table such as the schema version. */
  ghost predicate SameRows(lay: Layout, data: Flat, rows: Flat) {
    forall key {:trigger SameAt(lay, data, rows, key)} :: SameAt(lay, data, rows, key)
  }

  /** List ids and granularities are colon-free, and entries to remove complete. */
  predicate Regular(op: Op) {
    match op
    case AddDomain(p) => ColonFree(p.first)
    case RemoveDomain(p) => Separable(p)
    case ListDomains(l) => ColonFree(l)
    case PutStats(p, _) => ColonFree(p.first)
    case GetStats(p) => ColonFree(p.first)
    case ListStats(g) => ColonFree(g)
    case _ => true
  }

  ghost predicate Related(lay: Layout, data: Flat, rows: Flat, db: Db) {
    rows == Rows(db) && WellFormed(lay, data) && SameRows(lay, data, rows) && Mirrors(lay, rows, db)
  }

  // ----- one operation: reading

  lemma SameClient(lay: Layout, data: Flat, rows: Flat, db: Db, k: string)
    requires Lawful(lay) && Related(lay, data, rows, db)
    ensures if k in db.clients then lay.clientKey(k) in data && data[lay.clientKey(k)] == ClientValue(db.clients[k])
            else lay.clientKey(k) !in data
  {
    assert NameLaw(lay, k);
    assert ClientAt(lay, rows, db.clients, k);
    assert SameAt(lay, data, rows, lay.clientKey(k));
  }

  lemma SameSession(lay: Layout, data: Flat, rows: Flat, db: Db, t: string)
    requires Lawful(lay) && Related(lay, data, rows, db)
    ensures if t in db.sessions then lay.sessionKey(t) in data
      && data[lay.sessionKey(t)] == SessionValue(db.sessions[t])
            else lay.sessionKey(t) !in data
  {
    assert NameLaw(lay, t);
    assert SessionAt(lay, rows, db.sessions, t);
    assert SameAt(lay, data, rows, lay.sessionKey(t));
  }

  lemma SameDomain(lay: Layout, data: Flat, rows: Flat, db: Db, p: Pair)
    requires Lawful(lay) && Related(lay, data, rows, db)
    ensures p in db.lists <==> Separable(p) && lay.listKey(p) in data
  {
    assert PairLaw(lay, p);
    assert DomainAt(lay, rows, db.lists, p);
    assert SameAt(lay, data, rows, lay.listKey(p));
  }

  lemma SameCounters(lay: Layout, data: Flat, rows: Flat, db: Db, p: Pair)
    requires Lawful(lay) && Related(lay, data, rows, db)
    ensures if p in db.stats then lay.statsKey(p) in data
      && data[lay.statsKey(p)] == StatsValue(StatsRow(p.second, db.stats[p]))
            else !ColonFree(p.first) || lay.statsKey(p) !in data
  {
    assert PairLaw(lay, p);
    assert CountersAt(lay, rows, db.stats, p);
    assert SameAt(lay, data, rows, lay.statsKey(p));
    assert FitsAt(lay, data, lay.statsKey(p));
  }

  lemma SameClients(lay: Layout, data: Flat, rows: Flat, db: Db)
    requires Lawful(lay) && Related(lay, data, rows, db)
    ensures ClientsIn(lay, data) == db.clients.Values
  {
    forall c | c in ClientsIn(lay, data) ensures c in db.clients.Values {
      var key :| key in data && lay.kind(key) == ClientKind && data[key].ClientValue? && data[key].client == c;
      assert KeyLaw(lay, key);
      SameClient(lay, data, rows, db, lay.clientOf(key));
    }
    forall c | c in db.clients.Values ensures c in ClientsIn(lay, data) {
      var k :| k in db.clients && db.clients[k] == c;
      SameClient(lay, data, rows, db, k);
      assert NameLaw(lay, k);
    }
  }

  lemma SameDomains(lay: Layout, data: Flat, rows: Flat, db: Db, l: string)
    requires Lawful(lay) && Related(lay, data, rows, db) && ColonFree(l)
    ensures DomainsIn(lay, data, l) == TableDomains(db.lists, l)
  {
    forall d | d in DomainsIn(lay, data, l) ensures d in TableDomains(db.lists, l) {
      var key :| key in data && lay.inList(l, key) && lay.domainIn(l, key) == d;
      assert PrefixLaw(lay, l, key) && FitsAt(lay, data, key) && PairLaw(lay, Pair(l, d));
      SameDomain(lay, data, rows, db, Pair(l, d));
      assert Pair(l, d) in db.lists;
    }
    forall d | d in TableDomains(db.lists, l) ensures d in DomainsIn(lay, data, l) {
      var p :| p in db.lists && p.first == l && p.second == d;
      SameDomain(lay, data, rows, db, p);
      assert PairLaw(lay, p);
    }
  }

  /** A granularity's rows in the flat map, one by one. */
  lemma StatsInAt(lay: Layout, data: Flat, g: string, b: string)
    requires Lawful(lay)
    ensures var key := lay.statsKey(Pair(g, b));
      && (b in StatsIn(lay, data, g) <==> key in data && data[key].StatsValue?)
      && (b in StatsIn(lay, data, g) ==> StatsIn(lay, data, g)[b] == data[key].row)
  {
    assert PairLaw(lay, Pair(g, b));
    if lay.statsKey(Pair(g, b)) in data { assert b in BucketsIn(lay, data, g); }
  }

  lemma SameStats(lay: Layout, data: Flat, rows: Flat, db: Db, g: string)
    requires Lawful(lay) && Related(lay, data, rows, db) && ColonFree(g)
    ensures StatsIn(lay, data, g) == TableStats(db.stats, g)
  {
    forall b
      ensures b in StatsIn(lay, data, g) <==> b in TableStats(db.stats, g)
      ensures b in StatsIn(lay, data, g) ==> StatsIn(lay, data, g)[b] == TableStats(db.stats, g)[b]
    {
      StatsInAt(lay, data, g, b);
      SameCounters(lay, data, rows, db, Pair(g, b));
      assert FitsAt(lay, data, lay.statsKey(Pair(g, b))) && PairLaw(lay, Pair(g, b));
    }
  }

  /** Reading gives the same results. */
  lemma SameReads(lay: Layout, data: Flat, rows: Flat, db: Db, op: Op)
    requires Lawful(lay) && Related(lay, data, rows, db) && Regular(op)
    requires op.GetClient? || op.ListClients? || op.ListDomains? || op.GetSession? || op.GetStats? || op.ListStats?
    ensures JsonStep(lay, data, op).1 == SqlStep(lay, db, op).1
  {
    match op
    case GetClient(k) => SameClient(lay, data, rows, db, k);
    case ListClients => SameClients(lay, data, rows, db);
    case ListDomains(l) => SameDomains(lay, data, rows, db, l);
    case GetSession(t) => SameSession(lay, data, rows, db, t);
    case GetStats(p) => SameCounters(lay, data, rows, db, p);
    case ListStats(g) => SameStats(lay, data, rows, db, g);
  }

  // ----- one operation: writing

  lemma RowsPut(lay: Layout, db: Db, key: string, value: Value)
    ensures Rows(PutKv(lay, db, key, value)) == Rows(db)[key := value]
  {
  }

  lemma RowsDelete(db: Db, after: Db, keys: set<string>)
    requires after.kv == db.kv - keys
    ensures Rows(after) == Rows(db) - keys
  {
  }

  /** `after` differs from `before` only in rows of one kind, and in the table of that kind. */
  ghost predicate OnlyKind(lay: Layout, rows: Flat, rows': Flat, kind: Kind) {
    forall key {:trigger SameAlong(lay, rows, rows', kind, key)} :: SameAlong(lay, rows, rows', kind, key)
  }

  predicate SameAlong(lay: Layout, rows: Flat, rows': Flat, kind: Kind, key: string) {
    lay.kind(key) != kind ==> (key in rows <==> key in rows') && (key in rows ==> rows[key] == rows'[key])
  }

  lemma OtherClientsStand(lay: Layout, rows: Flat, rows': Flat, kind: Kind, db: Db)
    requires Lawful(lay) && OnlyKind(lay, rows, rows', kind) && kind != ClientKind && Mirrors(lay, rows, db)
    ensures forall k {:trigger ClientAt(lay, rows', db.clients, k)} :: ClientAt(lay, rows', db.clients, k)
  {
    forall k ensures ClientAt(lay, rows', db.clients, k) {
      assert NameLaw(lay, k) && ClientAt(lay, rows, db.clients, k)
        && SameAlong(lay, rows, rows', kind, lay.clientKey(k));
    }
  }

  lemma OtherSessionsStand(lay: Layout, rows: Flat, rows': Flat, kind: Kind, db: Db)
    requires Lawful(lay) && OnlyKind(lay, rows, rows', kind) && kind != SessionKind && Mirrors(lay, rows, db)
    ensures forall t {:trigger SessionAt(lay, rows', db.sessions, t)} :: SessionAt(lay, rows', db.sessions, t)
  {
    forall t ensures SessionAt(lay, rows', db.sessions, t) {
      assert NameLaw(lay, t) && SessionAt(lay, rows, db.sessions, t)
        && SameAlong(lay, rows, rows', kind, lay.sessionKey(t));
    }
  }

  lemma OtherListsStand(lay: Layout, rows: Flat, rows': Flat, kind: Kind, db: Db)
    requires Lawful(lay) && OnlyKind(lay, rows, rows', kind) && kind != ListKind && Mirrors(lay, rows, db)
    ensures forall p {:trigger DomainAt(lay, rows', db.lists, p)} :: DomainAt(lay, rows', db.lists, p)
  {
    forall p ensures DomainAt(lay, rows', db.lists, p) {
      assert PairLaw(lay, p) && DomainAt(lay, rows, db.lists, p) && SameAlong(lay, rows, rows', kind, lay.listKey(p));
    }
  }

  lemma OtherStatsStand(lay: Layout, rows: Flat, rows': Flat, kind: Kind, db: Db)
    requires Lawful(lay) && OnlyKind(lay, rows, rows', kind) && kind != StatsKind && Mirrors(lay, rows, db)
    ensures forall p {:trigger CountersAt(lay, rows', db.stats, p)} :: CountersAt(lay, rows', db.stats, p)
  {
    forall p ensures CountersAt(lay, rows', db.stats, p) {
      assert PairLaw(lay, p) && CountersAt(lay, rows, db.stats, p)
        && SameAlong(lay, rows, rows', kind, lay.statsKey(p));
    }
  }

  /** Putting one fitting row in both. */
  lemma PutBoth(lay: Layout, data: Flat, rows: Flat, key: string, value: Value)
    requires WellFormed(lay, data) && SameRows(lay, data, rows) && FitsKey(lay, key, value)
    ensures WellFormed(lay, data[key := value]) && SameRows(lay, data[key := value], rows[key := value])
    ensures OnlyKind(lay, rows, rows[key := value], lay.kind(key))
  {
    var data', rows' := data[key := value], rows[key := value];
    forall k ensures FitsAt(lay, data', k) { assert FitsAt(lay, data, k); }
    forall k ensures SameAt(lay, data', rows', k) { assert SameAt(lay, data, rows, k); }
  }

  /** Deleting the same rows of one kind from both. */
  lemma DeleteBoth(lay: Layout, data: Flat, rows: Flat, keys: set<string>, kind: Kind)
    requires WellFormed(lay, data) && SameRows(lay, data, rows) && forall key | key in keys :: lay.kind(key) == kind
    ensures WellFormed(lay, data - keys) && SameRows(lay, data - keys, rows - keys)
    ensures OnlyKind(lay, rows, rows - keys, kind)
  {
    forall k ensures FitsAt(lay, data - keys, k) { assert FitsAt(lay, data, k); }
    forall k ensures SameAt(lay, data - keys, rows - keys, k) { assert SameAt(lay, data, rows, k); }
  }

  lemma PutClientKeeps(lay: Layout, data: Flat, rows: Flat, db: Db, c: Client)
    requires Lawful(lay) && Related(lay, data, rows, db)
    ensures var key, value := lay.clientKey(c.key), ClientValue(c);
      Related(lay, data[key := value], rows[key := value], PutClientRow(lay, db, key, c, value))
  {
    var key, value := lay.clientKey(c.key), ClientValue(c);
    assert NameLaw(lay, c.key);
    var rows', after := rows[key := value], PutClientRow(lay, db, key, c, value);
    RowsPut(lay, db.(clients := db.clients[c.key := c]), key, value);
    PutBoth(lay, data, rows, key, value);
    forall k ensures ClientAt(lay, rows', after.clients, k) {
      assert NameLaw(lay, k) && ClientAt(lay, rows, db.clients, k);
    }
    OtherSessionsStand(lay, rows, rows', ClientKind, db);
    OtherListsStand(lay, rows, rows', ClientKind, db);
    OtherStatsStand(lay, rows, rows', ClientKind, db);
  }

  lemma PutSessionKeeps(lay: Layout, data: Flat, rows: Flat, db: Db, s: Session)
    requires Lawful(lay) && Related(lay, data, rows, db)
    ensures var key, value := lay.sessionKey(s.token), SessionValue(s);
      Related(lay, data[key := value], rows[key := value], PutSessionRow(lay, db, key, s, value))
  {
    var key, value := lay.sessionKey(s.token), SessionValue(s);
    assert NameLaw(lay, s.token);
    var rows', after := rows[key := value], PutSessionRow(lay, db, key, s, value);
    RowsPut(lay, db.(sessions := db.sessions[s.token := s]), key, value);
    PutBoth(lay, data, rows, key, value);
    forall t ensures SessionAt(lay, rows', after.sessions, t) {
      assert NameLaw(lay, t) && SessionAt(lay, rows, db.sessions, t);
    }
    OtherClientsStand(lay, rows, rows', SessionKind, db);
    OtherListsStand(lay, rows, rows', SessionKind, db);
    OtherStatsStand(lay, rows, rows', SessionKind, db);
  }

  lemma PutListKeeps(lay: Layout, data: Flat, rows: Flat, db: Db, p: Pair, value: Value)
    requires Lawful(lay) && Related(lay, data, rows, db) && Separable(p)
    ensures var key := lay.listKey(p);
      Related(lay, data[key := value], rows[key := value], PutListRow(lay, db, key, p, value))
  {
    var key := lay.listKey(p);
    assert PairLaw(lay, p);
    var rows', after := rows[key := value], PutListRow(lay, db, key, p, value);
    RowsPut(lay, db.(lists := db.lists + {p}), key, value);
    PutBoth(lay, data, rows, key, value);
    forall q ensures DomainAt(lay, rows', after.lists, q) {
      assert PairLaw(lay, q) && DomainAt(lay, rows, db.lists, q);
    }
    OtherClientsStand(lay, rows, rows', ListKind, db);
    OtherSessionsStand(lay, rows, rows', ListKind, db);
    OtherStatsStand(lay, rows, rows', ListKind, db);
  }

  lemma PutStatsKeeps(lay: Layout, data: Flat, rows: Flat, db: Db, p: Pair, counters: Counters)
    requires Lawful(lay) && Related(lay, data, rows, db) && Separable(p)
    ensures var key, value := lay.statsKey(p), StatsValue(StatsRow(p.second, counters));
      Related(lay, data[key := value], rows[key := value], PutStatsRow(lay, db, key, p, counters, value))
  {
    var key, value := lay.statsKey(p), StatsValue(StatsRow(p.second, counters));
    assert PairLaw(lay, p);
    var rows', after := rows[key := value], PutStatsRow(lay, db, key, p, counters, value);
    RowsPut(lay, db.(stats := db.stats[p := counters]), key, value);
    PutBoth(lay, data, rows, key, value);
    forall q ensures CountersAt(lay, rows', after.stats, q) {
      assert PairLaw(lay, q) && CountersAt(lay, rows, db.stats, q);
    }
    OtherClientsStand(lay, rows, rows', StatsKind, db);
    OtherSessionsStand(lay, rows, rows', StatsKind, db);
    OtherListsStand(lay, rows, rows', StatsKind, db);
  }

  lemma DeleteClientKeeps(lay: Layout, data: Flat, rows: Flat, db: Db, k: string)
    requires Lawful(lay) && Related(lay, data, rows, db)
    ensures var j, s := FlatDelete(data, lay.clientKey(k)), SqlDelete(lay, db, lay.clientKey(k));
      j.1 == s.1 && Related(lay, j.0, Rows(s.0), s.0)
  {
    var key := lay.clientKey(k);
    assert NameLaw(lay, k);
    SameClient(lay, data, rows, db, k);
    if key in data {
      var after := db.(kv := db.kv - {key}, clients := db.clients - {k});
      RowsDelete(db, after, {key});
      DeleteBoth(lay, data, rows, {key}, ClientKind);
      var rows' := rows - {key};
      forall k' ensures ClientAt(lay, rows', after.clients, k') {
        assert NameLaw(lay, k') && ClientAt(lay, rows, db.clients, k');
      }
      OtherSessionsStand(lay, rows, rows', ClientKind, db);
      OtherListsStand(lay, rows, rows', ClientKind, db);
      OtherStatsStand(lay, rows, rows', ClientKind, db);
    } else {
      assert SameAt(lay, data, rows, key);
    }
  }

  lemma SessionsGone(lay: Layout, data: Flat, rows: Flat, db: Db, tokens: set<string>)
    requires Lawful(lay) && Related(lay, data, rows, db)
    ensures var keys := SessionKeys(lay, tokens);
      Related(lay, data - keys, rows - keys, db.(kv := db.kv - keys, sessions := db.sessions - tokens))
  {
    var keys := SessionKeys(lay, tokens);
    var after := db.(kv := db.kv - keys, sessions := db.sessions - tokens);
    RowsDelete(db, after, keys);
    forall key | key in keys ensures lay.kind(key) == SessionKind {
      var t :| t in tokens && lay.sessionKey(t) == key;
      assert NameLaw(lay, t);
    }
    DeleteBoth(lay, data, rows, keys, SessionKind);
    var rows' := rows - keys;
    forall t ensures SessionAt(lay, rows', after.sessions, t) {
      assert NameLaw(lay, t) && SessionAt(lay, rows, db.sessions, t);
      if lay.sessionKey(t) in keys {
        var u :| u in tokens && lay.sessionKey(u) == lay.sessionKey(t);
        assert NameLaw(lay, u);
      }
    }
    OtherClientsStand(lay, rows, rows', SessionKind, db);
    OtherListsStand(lay, rows, rows', SessionKind, db);
    OtherStatsStand(lay, rows, rows', SessionKind, db);
  }

  lemma DeleteSessionKeeps(lay: Layout, data: Flat, rows: Flat, db: Db, t: string)
    requires Lawful(lay) && Related(lay, data, rows, db)
    ensures var j, s := FlatDelete(data, lay.sessionKey(t)), SqlDelete(lay, db, lay.sessionKey(t));
      j.1 == s.1 && Related(lay, j.0, Rows(s.0), s.0)
  {
    var key := lay.sessionKey(t);
    assert NameLaw(lay, t);
    SameSession(lay, data, rows, db, t);
    assert SameAt(lay, data, rows, key);
    SessionsGone(lay, data, rows, db, {t});
    assert SessionKeys(lay, {t}) == {key};
  }

  lemma RemoveDomainKeeps(lay: Layout, data: Flat, rows: Flat, db: Db, p: Pair)
    requires Lawful(lay) && Related(lay, data, rows, db) && Separable(p)
    ensures var j, s := FlatDelete(data, lay.listKey(p)), SqlDelete(lay, db, lay.listKey(p));
      j.1 == s.1 && Related(lay, j.0, Rows(s.0), s.0)
  {
    var key := lay.listKey(p);
    assert PairLaw(lay, p);
    SameDomain(lay, data, rows, db, p);
    if key in data {
      var after := db.(kv := db.kv - {key}, lists := db.lists - {p});
      RowsDelete(db, after, {key});
      DeleteBoth(lay, data, rows, {key}, ListKind);
      var rows' := rows - {key};
      forall q ensures DomainAt(lay, rows', after.lists, q) {
        assert PairLaw(lay, q) && DomainAt(lay, rows, db.lists, q);
      }
      OtherClientsStand(lay, rows, rows', ListKind, db);
      OtherSessionsStand(lay, rows, rows', ListKind, db);
      OtherStatsStand(lay, rows, rows', ListKind, db);
    } else {
      assert SameAt(lay, data, rows, key);
    }
  }

  lemma SameExpired(lay: Layout, data: Flat, rows: Flat, db: Db, now: int)
    requires Lawful(lay) && Related(lay, data, rows, db)
    ensures ExpiredKeys(lay, data, now) == SessionKeys(lay, ExpiredTokens(db, now))
  {
    forall key | key in ExpiredKeys(lay, data, now) ensures key in SessionKeys(lay, ExpiredTokens(db, now)) {
      var t := lay.sessionOf(key);
      assert KeyLaw(lay, key);
      SameSession(lay, data, rows, db, t);
      assert t in ExpiredTokens(db, now);
    }
    forall key | key in SessionKeys(lay, ExpiredTokens(db, now)) ensures key in ExpiredKeys(lay, data, now) {
      var t :| t in ExpiredTokens(db, now) && lay.sessionKey(t) == key;
      assert NameLaw(lay, t);
      SameSession(lay, data, rows, db, t);
    }
  }

  /** One operation on both backends: the same result, and still the same rows with the tables their mirror. */
  lemma SameStep(lay: Layout, data: Flat, rows: Flat, db: Db, op: Op)
    requires Lawful(lay) && Related(lay, data, rows, db) && Regular(op)
    ensures JsonStep(lay, data, op).1 == SqlStep(lay, db, op).1
    ensures var after := SqlStep(lay, db, op).0; Related(lay, JsonStep(lay, data, op).0, Rows(after), after)
  {
    match op
    case UpsertClient(c) => if c.key != "" { PutClientKeeps(lay, data, rows, db, c); }
    case DeleteClient(k) => DeleteClientKeeps(lay, data, rows, db, k);
    case AddDomain(p) => if p.first != "" && p.second != "" { PutListKeeps(lay, data, rows, db, p, TrueValue); }
    case RemoveDomain(p) => RemoveDomainKeeps(lay, data, rows, db, p);
    case UpsertSession(s) => if s.token != "" { PutSessionKeeps(lay, data, rows, db, s); }
    case DeleteSession(t) => DeleteSessionKeeps(lay, data, rows, db, t);
    case DeleteExpired(now) =>
      SameExpired(lay, data, rows, db, now);
      SessionsGone(lay, data, rows, db, ExpiredTokens(db, now));
    case PutStats(p, row) => if p.first != "" && p.second != "" { PutStatsKeeps(lay, data, rows, db, p, row.counters); }
    case GetClient(_) => SameReads(lay, data, rows, db, op);
    case ListClients => SameReads(lay, data, rows, db, op);
    case ListDomains(_) => SameReads(lay, data, rows, db, op);
    case GetSession(_) => SameReads(lay, data, rows, db, op);
    case GetStats(_) => SameReads(lay, data, rows, db, op);
    case ListStats(_) => SameReads(lay, data, rows, db, op);
  }

  // ----- whole runs

  /** Operations in order, the last one outermost. */
  datatype Run = Opened | Then(before: Run, op: Op)

  predicate AllRegular(run: Run) {
    run.Then? ==> AllRegular(run.before) && Regular(run.op)
  }

  ghost function JsonAfter(lay: Layout, data: Flat, run: Run): Flat {
    match run
    case Opened => data
    case Then(before, op) => JsonStep(lay, JsonAfter(lay, data, before), op).0
  }

  ghost function SqlAfter(lay: Layout, db: Db, run: Run): Db {
    match run
    case Opened => db
    case Then(before, op) => SqlStep(lay, SqlAfter(lay, db, before), op).0
  }

  /** What the callers saw. */
  ghost function JsonResults(lay: Layout, data: Flat, run: Run): seq<Result> {
    match run
    case Opened => []
    case Then(before, op) => JsonResults(lay, data, before) + [JsonStep(lay, JsonAfter(lay, data, before), op).1]
  }

  ghost function SqlResults(lay: Layout, db: Db, run: Run): seq<Result> {
    match run
    case Opened => []
    case Then(before, op) => SqlResults(lay, db, before) + [SqlStep(lay, SqlAfter(lay, db, before), op).1]
  }

  /**
   * After any run of operations the callers of the two backends saw the same, and the tables still mirror the kv
   * rows.
   */
  lemma {:induction false} BackendsIndistinguishable(lay: Layout, data: Flat, db: Db, run: Run)
    requires Lawful(lay) && Related(lay, data, Rows(db), db) && AllRegular(run)
    ensures JsonResults(lay, data, run) == SqlResults(lay, db, run)
    ensures var after := SqlAfter(lay, db, run); Related(lay, JsonAfter(lay, data, run), Rows(after), after)
  {
    if run.Then? {
      BackendsIndistinguishable(lay, data, db, run.before);
      var db' := SqlAfter(lay, db, run.before);
      SameStep(lay, JsonAfter(lay, data, run.before), Rows(db'), db', run.op);
    }
  }

  function EmptyDb(): Db {
    Db(map[], map[], map[], {}, map[])
  }

  lemma EmptyStoresRelated(lay: Layout)
    ensures Related(lay, map[], Rows(EmptyDb()), EmptyDb())
  {
    assert Rows(EmptyDb()) == map[];
  }

  /** From empty stores, the callers of the two backends see the same. */
  ghost predicate SameAnswers(snapshots: (string, Value) -> bool, run: Run) {
    JsonResults(SisLayout(snapshots), map[], run) == SqlResults(SisLayout(snapshots), EmptyDb(), run)
  }

  /** The same with the keys as they are, from two empty stores. */
  lemma SisBackendsIndistinguishable(snapshots: (string, Value) -> bool, run: Run)
    requires AllRegular(run)
    ensures SameAnswers(snapshots, run)
    ensures Mirror(SisLayout(snapshots), SqlAfter(SisLayout(snapshots), EmptyDb(), run))
  {
    SisLayoutIsLawful(snapshots);
    EmptyStoresRelated(SisLayout(snapshots));
    BackendsIndistinguishable(SisLayout(snapshots), map[], EmptyDb(), run);
  }

  // ----- why list ids must be colon-free

  function AddRemoveList(p: Pair): Run {
    Then(AddThenRemove(p), ListDomains(p.first))
  }

  function AddThenRemove(p: Pair): Run {
    Then(Then(Opened, AddDomain(p)), RemoveDomain(p))
  }

  lemma JsonAddThenRemove(lay: Layout, p: Pair)
    requires p.first != "" && p.second != ""
    ensures JsonAfter(lay, map[], AddThenRemove(p)) == map[]
      && JsonResults(lay, map[], AddThenRemove(p)) == [Done, Done]
  {
    var one := Then(Opened, AddDomain(p));
    assert JsonAfter(lay, map[], Opened) == map[] && JsonResults(lay, map[], Opened) == [];
    assert JsonAfter(lay, map[], one) == map[lay.listKey(p) := TrueValue] && JsonResults(lay, map[], one) == [Done];
  }

  lemma SqlAddThenRemove(lay: Layout, p: Pair)
    requires Lawful(lay) && p.first != "" && p.second != "" && !ColonFree(p.first)
    ensures SqlResults(lay, EmptyDb(), AddThenRemove(p)) == [Done, Done] ==>
      SqlAfter(lay, EmptyDb(), AddThenRemove(p)).lists == {p}
    ensures |SqlResults(lay, EmptyDb(), AddThenRemove(p))| == 2
  {
    var one, key := Then(Opened, AddDomain(p)), lay.listKey(p);
    var db := PutListRow(lay, EmptyDb(), key, p, TrueValue);
    assert SqlAfter(lay, EmptyDb(), Opened) == EmptyDb() && SqlResults(lay, EmptyDb(), Opened) == [];
    assert SqlAfter(lay, EmptyDb(), one) == db && SqlResults(lay, EmptyDb(), one) == [Done];
    assert PairLaw(lay, p) && KeyLaw(lay, key);
  }

  /**
   * Adding an entry, removing it and listing the rest tells the backends apart exactly when
   * the list id has a colon: SQLite then removes another entry, or none, and still lists this one.
   */
  lemma ColonTellsApart(lay: Layout, p: Pair)
    requires Lawful(lay) && p.first != "" && p.second != ""
    ensures JsonResults(lay, map[], AddRemoveList(p)) == SqlResults(lay, EmptyDb(), AddRemoveList(p))
      <==> ColonFree(p.first)
  {
    if ColonFree(p.first) {
      EmptyStoresRelated(lay);
      assert AllRegular(Then(Opened, AddDomain(p)));
      BackendsIndistinguishable(lay, map[], EmptyDb(), AddRemoveList(p));
    } else {
      ColonIsSeen(lay, p);
    }
  }

  lemma ColonIsSeen(lay: Layout, p: Pair)
    requires Lawful(lay) && p.first != "" && p.second != "" && !ColonFree(p.first)
    ensures JsonResults(lay, map[], AddRemoveList(p)) != SqlResults(lay, EmptyDb(), AddRemoveList(p))
  {
    JsonListsNothing(lay, p);
    SqlListsStill(lay, p);
    assert [Done, Done, DomainsAre([])][..2] == [Done, Done];
  }

  lemma JsonListsNothing(lay: Layout, p: Pair)
    requires p.first != "" && p.second != ""
    ensures JsonResults(lay, map[], AddRemoveList(p)) == [Done, Done, DomainsAre([])]
  {
    JsonAddThenRemove(lay, p);
    assert DomainsIn(lay, map[], p.first) == {};
    assert Listing(DomainsIn(lay, map[], p.first), Less) == [];
  }

  lemma SqlListsStill(lay: Layout, p: Pair)
    requires Lawful(lay) && p.first != "" && p.second != "" && !ColonFree(p.first)
    ensures var r := SqlResults(lay, EmptyDb(), AddRemoveList(p));
      |r| == 3 && (r[..2] == [Done, Done] ==> r[2] != DomainsAre([]))
  {
    SqlAddThenRemove(lay, p);
    var before, db := SqlResults(lay, EmptyDb(), AddThenRemove(p)), SqlAfter(lay, EmptyDb(), AddThenRemove(p));
    StillListed(db.lists, p);
    var r := SqlResults(lay, EmptyDb(), AddRemoveList(p));
    assert r == before + [SqlStep(lay, db, ListDomains(p.first)).1];
    assert r[..2] == before;
  }

  lemma StillListed(lists: set<Pair>, p: Pair)
    ensures p in lists ==> Listing(TableDomains(lists, p.first), Less) != []
  {
    if p in lists { assert p.second in TableDomains(lists, p.first); }
  }

  // ----- why granularities must be colon-free

  function PutThenGet(p: Pair, row: StatsRow, q: Pair): Run {
    Then(Then(Opened, PutStats(p, row)), GetStats(q))
  }

  /** Putting a row and getting another tells the backends apart exactly when the two share a key. */
  lemma SharedKeyTellsApart(lay: Layout, p: Pair, row: StatsRow, q: Pair)
    requires p.first != "" && p.second != ""
    ensures JsonResults(lay, map[], PutThenGet(p, row, q)) == SqlResults(lay, EmptyDb(), PutThenGet(p, row, q))
       <==> p == q || lay.statsKey(p) != lay.statsKey(q)
  {
    var one, stored := Then(Opened, PutStats(p, row)), StoredRow(p, row);
    assert JsonAfter(lay, map[], Opened) == map[] && JsonResults(lay, map[], Opened) == [];
    assert SqlAfter(lay, EmptyDb(), Opened) == EmptyDb() && SqlResults(lay, EmptyDb(), Opened) == [];
    assert JsonAfter(lay, map[], one) == map[lay.statsKey(p) := StatsValue(stored)]
      && JsonResults(lay, map[], one) == [Done];
    assert SqlAfter(lay, EmptyDb(), one).stats == map[p := row.counters] && SqlResults(lay, EmptyDb(), one) == [Done];
    var json := if lay.statsKey(q) == lay.statsKey(p) then StatsIs(stored) else NotFound;
    var sql := if q == p then StatsIs(stored) else NotFound;
    assert JsonResults(lay, map[], PutThenGet(p, row, q)) == [Done] + [json];
    assert SqlResults(lay, EmptyDb(), PutThenGet(p, row, q)) == [Done] + [sql];
    assert ([Done] + [json])[1] == json && ([Done] + [sql])[1] == sql;
  }

  /** So after a put every get agrees exactly when granularity and bucket have no colon. */
  lemma StatsColonTellsApart(snapshots: (string, Value) -> bool, p: Pair, row: StatsRow)
    requires p.first != "" && p.second != ""
    ensures (forall q :: SameAnswers(snapshots, PutThenGet(p, row, q))) <==> ColonFree(p.first) && ColonFree(p.second)
  {
    if ColonFree(p.first) && ColonFree(p.second) {
      forall q ensures SameAnswers(snapshots, PutThenGet(p, row, q)) {
        SharedKeyTellsApart(SisLayout(snapshots), p, row, q);
        if PairKey("stats", p) == PairKey("stats", q) { ColonFreeIsUnique("stats", p, q); }
      }
    } else {
      var q := ColonIsAmbiguous("stats", p);
      SharedKeyTellsApart(SisLayout(snapshots), p, row, q);
      assert !SameAnswers(snapshots, PutThenGet(p, row, q));
    }
  }

  /**
   * Removing an entry gives the same result exactly when its key comes apart, into this entry or another; otherwise
   * one backend goes by the key and the other refuses it.
   */
  lemma UnsplitRemovalTellsApart(lay: Layout, data: Flat, db: Db, p: Pair)
    requires Lawful(lay) && Related(lay, data, Rows(db), db)
    ensures JsonStep(lay, data, RemoveDomain(p)).1 == SqlStep(lay, db, RemoveDomain(p)).1
       <==> lay.listOf(lay.listKey(p)).Some?
  {
    var key := lay.listKey(p);
    assert PairLaw(lay, p) && KeyLaw(lay, key) && SameAt(lay, data, Rows(db), key);
    if lay.listOf(key).Some? { SameDomain(lay, data, Rows(db), db, lay.listOf(key).value); }
  }

  /**
   * With the keys as they are, exactly when the list id neither is empty nor starts with a colon, and there is a domain
   * or a later colon in the list id.
   */
  lemma SisRemovalTellsApart(snapshots: (string, Value) -> bool, data: Flat, db: Db, p: Pair)
    requires Related(SisLayout(snapshots), data, Rows(db), db)
    ensures var lay := SisLayout(snapshots);
      JsonStep(lay, data, RemoveDomain(p)).1 == SqlStep(lay, db, RemoveDomain(p)).1 <==> ComesApart(p)
  {
    SisLayoutIsLawful(snapshots);
    UnsplitRemovalTellsApart(SisLayout(snapshots), data, db, p);
    ComesApartIff("customlist", p);
  }
}

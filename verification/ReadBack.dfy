/**
 * What callers of either store backend read back after any run of operations: the last thing written under a name, and
 * nothing else (internal/store/file.go and internal/store/sqlite.go).
 */
module ReadBack {
  import opened Options
  import opened Ordering
  import opened StoreKeys
  import opened StatsBuckets
  import opened StorePayloads
  import opened StoreSpec
  import opened Stores

  // ----- what a run leaves to be read, told from its operations alone

  /** What is seen after a run, if each operation changes what is seen like this. */
  function After<R>(first: R, run: Run, change: (R, Op) -> R): R {
    match run
    case Opened => first
    case Then(before, op) => change(After(first, before, change), op)
  }

  /** The client under this key: the last one upserted, none once it is deleted. */
  function ClientChange(k: string): (Result, Op) -> Result {
    (seen: Result, op: Op) =>
      match op
      case UpsertClient(c) => if c.key == k && k != "" then ClientIs(c) else seen
      case DeleteClient(who) => if who == k then NotFound else seen
      case _ => seen
  }

  /** The session under this token, which also goes once its expiry is set and past. */
  function SessionChange(t: string): (Result, Op) -> Result {
    (seen: Result, op: Op) =>
      match op
      case UpsertSession(s) => if s.token == t && t != "" then SessionIs(s) else seen
      case DeleteSession(who) => if who == t then NotFound else seen
      case DeleteExpired(now) =>
        if seen.SessionIs? && seen.session.expiresAt != 0 && seen.session.expiresAt < now then NotFound else seen
      case _ => seen
  }

  /** Whether an entry is listed: it is once it was added, and is not once it was removed. */
  function ListChange(adds: Pair -> bool, removes: Pair -> bool): (bool, Op) -> bool {
    (seen: bool, op: Op) =>
      match op
      case AddDomain(q) => seen || (q.first != "" && q.second != "" && adds(q))
      case RemoveDomain(q) => seen && !removes(q)
      case _ => seen
  }

  /** The statistics row of a slot: the counters last put, under the bucket they were put for. */
  function StatsChange(same: Pair -> bool): (Result, Op) -> Result {
    (seen: Result, op: Op) =>
      match op
      case PutStats(q, row) =>
        if q.first != "" && q.second != "" && same(q) then StatsIs(StatsRow(q.second, row.counters)) else seen
      case _ => seen
  }

  /** Entries, or slots, that share a key with this one. */
  function SameListKey(lay: Layout, p: Pair): Pair -> bool { q => lay.listKey(q) == lay.listKey(p) }
  function SameStatsKey(lay: Layout, p: Pair): Pair -> bool { q => lay.statsKey(q) == lay.statsKey(p) }

  function Exactly(p: Pair): Pair -> bool { q => q == p }

  /** Entries whose key comes apart into this one. */
  function SplitsInto(lay: Layout, p: Pair): Pair -> bool { q => lay.listOf(lay.listKey(q)) == Some(p) }

  predicate Listed(r: Result, d: string) {
    r.DomainsAre? && d in r.domains
  }

  // ----- the JSON store

  ghost function JsonGet(lay: Layout, get: Op): Flat -> Result {
    (data: Flat) => JsonStep(lay, data, get).1
  }

  ghost function JsonLists(lay: Layout, p: Pair): Flat -> bool {
    (data: Flat) => Listed(JsonStep(lay, data, ListDomains(p.first)).1, p.second)
  }

  predicate JsonChanges<R(==)>(lay: Layout, see: Flat -> R, change: (R, Op) -> R, data: Flat, op: Op, after: Flat) {
    see(after) == change(see(data), op)
  }

  lemma {:induction false} JsonReads<R>(lay: Layout, data: Flat, run: Run, see: Flat -> R, change: (R, Op) -> R)
    requires forall d, op {:trigger JsonStep(lay, d, op)} ::
      JsonChanges(lay, see, change, d, op, JsonStep(lay, d, op).0)
    ensures see(JsonAfter(lay, data, run)) == After(see(data), run, change)
  {
    if run.Then? {
      JsonReads(lay, data, run.before, see, change);
      assert JsonChanges(lay, see, change, JsonAfter(lay, data, run.before), run.op,
                         JsonStep(lay, JsonAfter(lay, data, run.before), run.op).0);
    }
  }

  /** Where an operation may write: nothing is changed under a key of another kind. */
  lemma JsonLeaves(lay: Layout, data: Flat, op: Op, key: string)
    requires Lawful(lay)
    requires lay.kind(key) == ClientKind ==> !op.UpsertClient? && !op.DeleteClient?
    requires lay.kind(key) == SessionKind ==> !op.UpsertSession? && !op.DeleteSession? && !op.DeleteExpired?
    requires lay.kind(key) == ListKind ==> !op.AddDomain? && !op.RemoveDomain?
    requires lay.kind(key) == StatsKind ==> !op.PutStats?
    ensures var after := JsonStep(lay, data, op).0;
      (key in after <==> key in data) && (key in after ==> after[key] == data[key])
  {
    match op
    case UpsertClient(c) => assert NameLaw(lay, c.key);
    case DeleteClient(k) => assert NameLaw(lay, k);
    case AddDomain(p) => assert PairLaw(lay, p);
    case RemoveDomain(p) => assert PairLaw(lay, p);
    case UpsertSession(s) => assert NameLaw(lay, s.token);
    case DeleteSession(t) => assert NameLaw(lay, t);
    case PutStats(p, _) => assert PairLaw(lay, p);
    case _ =>
  }

  lemma JsonClientStep(lay: Layout, data: Flat, op: Op, k: string)
    requires Lawful(lay)
    ensures JsonChanges(lay, JsonGet(lay, GetClient(k)), ClientChange(k), data, op, JsonStep(lay, data, op).0)
  {
    var key := lay.clientKey(k);
    assert NameLaw(lay, k);
    match op
    case UpsertClient(c) => assert NameLaw(lay, c.key);
    case DeleteClient(who) => assert NameLaw(lay, who);
    case _ => JsonLeaves(lay, data, op, key);
  }

  lemma JsonSessionStep(lay: Layout, data: Flat, op: Op, t: string)
    requires Lawful(lay)
    ensures JsonChanges(lay, JsonGet(lay, GetSession(t)), SessionChange(t), data, op, JsonStep(lay, data, op).0)
  {
    var key := lay.sessionKey(t);
    assert NameLaw(lay, t);
    match op
    case UpsertSession(s) => assert NameLaw(lay, s.token);
    case DeleteSession(who) => assert NameLaw(lay, who);
    case DeleteExpired(now) =>
    case _ => JsonLeaves(lay, data, op, key);
  }

  lemma JsonListed(lay: Layout, data: Flat, p: Pair)
    requires Lawful(lay)
    ensures JsonLists(lay, p)(data) <==> lay.listKey(p) in data
  {
    var key := lay.listKey(p);
    assert PairLaw(lay, p);
    if key in data { assert lay.domainIn(p.first, key) in DomainsIn(lay, data, p.first); }
    if p.second in DomainsIn(lay, data, p.first) {
      var j :| j in data && lay.inList(p.first, j) && lay.domainIn(p.first, j) == p.second;
      assert PrefixLaw(lay, p.first, j);
    }
  }

  lemma JsonListStep(lay: Layout, data: Flat, op: Op, p: Pair)
    requires Lawful(lay)
    ensures JsonChanges(lay, JsonLists(lay, p), ListChange(SameListKey(lay, p), SameListKey(lay, p)), data, op,
                        JsonStep(lay, data, op).0)
  {
    var after := JsonStep(lay, data, op).0;
    JsonListed(lay, data, p);
    JsonListed(lay, after, p);
    assert PairLaw(lay, p);
    match op
    case AddDomain(q) =>
    case RemoveDomain(q) =>
    case _ => JsonLeaves(lay, data, op, lay.listKey(p));
  }

  lemma JsonStatsStep(lay: Layout, data: Flat, op: Op, p: Pair)
    requires Lawful(lay)
    ensures JsonChanges(lay, JsonGet(lay, GetStats(p)), StatsChange(SameStatsKey(lay, p)), data, op,
                        JsonStep(lay, data, op).0)
  {
    assert PairLaw(lay, p);
    match op
    case PutStats(q, row) =>
    case _ => JsonLeaves(lay, data, op, lay.statsKey(p));
  }

  /** After any run, what the JSON store gives for a client or a session is what was last written under its name. */
  lemma JsonReadsNames(lay: Layout, data: Flat, run: Run, name: string)
    requires Lawful(lay)
    ensures var after := JsonAfter(lay, data, run);
      && JsonStep(lay, after, GetClient(name)).1
           == After(JsonStep(lay, data, GetClient(name)).1, run, ClientChange(name))
      && JsonStep(lay, after, GetSession(name)).1
           == After(JsonStep(lay, data, GetSession(name)).1, run, SessionChange(name))
  {
    forall d, op {:trigger JsonStep(lay, d, op)}
      ensures JsonChanges(lay, JsonGet(lay, GetClient(name)), ClientChange(name), d, op, JsonStep(lay, d, op).0)
      ensures JsonChanges(lay, JsonGet(lay, GetSession(name)), SessionChange(name), d, op, JsonStep(lay, d, op).0)
    {
      JsonClientStep(lay, d, op, name);
      JsonSessionStep(lay, d, op, name);
    }
    JsonReads(lay, data, run, JsonGet(lay, GetClient(name)), ClientChange(name));
    JsonReads(lay, data, run, JsonGet(lay, GetSession(name)), SessionChange(name));
  }

  /** An entry is listed as the operations on its key leave it, which are its own if nothing else has that key. */
  lemma JsonReadsLists(lay: Layout, data: Flat, run: Run, p: Pair)
    requires Lawful(lay)
    ensures Listed(JsonStep(lay, JsonAfter(lay, data, run), ListDomains(p.first)).1, p.second)
         == After(Listed(JsonStep(lay, data, ListDomains(p.first)).1, p.second), run,
                  ListChange(SameListKey(lay, p), SameListKey(lay, p)))
  {
    var see, change := JsonLists(lay, p), ListChange(SameListKey(lay, p), SameListKey(lay, p));
    forall d, op {:trigger JsonStep(lay, d, op)}
      ensures JsonChanges(lay, see, change, d, op, JsonStep(lay, d, op).0)
    {
      JsonListStep(lay, d, op, p);
    }
    JsonReads(lay, data, run, see, change);
  }

  /** A statistics row is the one last put under its key. */
  lemma JsonReadsStats(lay: Layout, data: Flat, run: Run, p: Pair)
    requires Lawful(lay)
    ensures JsonStep(lay, JsonAfter(lay, data, run), GetStats(p)).1
         == After(JsonStep(lay, data, GetStats(p)).1, run, StatsChange(SameStatsKey(lay, p)))
  {
    var see, change := JsonGet(lay, GetStats(p)), StatsChange(SameStatsKey(lay, p));
    forall d, op {:trigger JsonStep(lay, d, op)}
      ensures JsonChanges(lay, see, change, d, op, JsonStep(lay, d, op).0)
    {
      JsonStatsStep(lay, d, op, p);
    }
    JsonReads(lay, data, run, see, change);
  }

  // ----- the SQLite store

  ghost function SqlGet(lay: Layout, get: Op): Db -> Result {
    (db: Db) => SqlStep(lay, db, get).1
  }

  ghost function SqlLists(lay: Layout, p: Pair): Db -> bool {
    (db: Db) => Listed(SqlStep(lay, db, ListDomains(p.first)).1, p.second)
  }

  predicate SqlChanges<R(==)>(see: Db -> R, change: (R, Op) -> R, db: Db, op: Op, after: Db) {
    see(after) == change(see(db), op)
  }

  lemma {:induction false} SqlReads<R>(lay: Layout, db: Db, run: Run, see: Db -> R, change: (R, Op) -> R)
    requires forall d, op {:trigger SqlStep(lay, d, op)} :: SqlChanges(see, change, d, op, SqlStep(lay, d, op).0)
    ensures see(SqlAfter(lay, db, run)) == After(see(db), run, change)
  {
    if run.Then? {
      SqlReads(lay, db, run.before, see, change);
      assert SqlChanges(see, change, SqlAfter(lay, db, run.before), run.op,
                        SqlStep(lay, SqlAfter(lay, db, run.before), run.op).0);
    }
  }

  /** Deleting a key changes only the table of its kind. */
  lemma SqlDeleteLeaves(lay: Layout, db: Db, key: string)
    ensures var after := SqlDelete(lay, db, key).0;
      && (lay.kind(key) != ClientKind ==> after.clients == db.clients)
      && (lay.kind(key) != SessionKind ==> after.sessions == db.sessions)
      && after.stats == db.stats
  {
  }

  lemma SqlClientStep(lay: Layout, db: Db, op: Op, k: string)
    requires Lawful(lay)
    ensures SqlChanges(SqlGet(lay, GetClient(k)), ClientChange(k), db, op, SqlStep(lay, db, op).0)
  {
    match op
    case DeleteClient(who) => assert NameLaw(lay, who);
    case DeleteSession(t) =>
      assert NameLaw(lay, t);
      SqlDeleteLeaves(lay, db, lay.sessionKey(t));
    case RemoveDomain(p) =>
      assert PairLaw(lay, p);
      SqlDeleteLeaves(lay, db, lay.listKey(p));
    case _ =>
  }

  lemma SqlSessionStep(lay: Layout, db: Db, op: Op, t: string)
    requires Lawful(lay)
    ensures SqlChanges(SqlGet(lay, GetSession(t)), SessionChange(t), db, op, SqlStep(lay, db, op).0)
  {
    match op
    case DeleteClient(who) =>
      assert NameLaw(lay, who);
      SqlDeleteLeaves(lay, db, lay.clientKey(who));
    case DeleteSession(who) => SqlSessionDeleted(lay, db, who);
    case RemoveDomain(p) =>
      assert PairLaw(lay, p);
      SqlDeleteLeaves(lay, db, lay.listKey(p));
    case _ =>
  }

  lemma SqlSessionDeleted(lay: Layout, db: Db, t: string)
    requires Lawful(lay)
    ensures SqlStep(lay, db, DeleteSession(t)).0.sessions == db.sessions - {t}
  {
    assert NameLaw(lay, t);
  }

  lemma SqlListed(lay: Layout, db: Db, p: Pair)
    ensures SqlLists(lay, p)(db) <==> p in db.lists
  {
    if p.second in TableDomains(db.lists, p.first) {
      var q :| q in db.lists && q.first == p.first && q.second == p.second;
      assert q == p;
    }
  }

  lemma SqlDeleteLists(lay: Layout, db: Db, key: string)
    ensures SqlDelete(lay, db, key).0.lists
         == if lay.kind(key) == ListKind && lay.listOf(key).Some? then db.lists - {lay.listOf(key).value} else db.lists
  {
  }

  lemma SqlStepLists(lay: Layout, db: Db, op: Op)
    requires Lawful(lay)
    ensures SqlStep(lay, db, op).0.lists == match op
      case AddDomain(q) => if q.first == "" || q.second == "" then db.lists else db.lists + {q}
      case RemoveDomain(q) =>
        (match lay.listOf(lay.listKey(q)) case Some(p) => db.lists - {p} case None => db.lists)
      case _ => db.lists
  {
    match op
    case DeleteClient(who) =>
      assert NameLaw(lay, who);
      SqlDeleteLists(lay, db, lay.clientKey(who));
    case DeleteSession(who) =>
      assert NameLaw(lay, who);
      SqlDeleteLists(lay, db, lay.sessionKey(who));
    case RemoveDomain(q) =>
      assert PairLaw(lay, q);
      SqlDeleteLists(lay, db, lay.listKey(q));
    case _ =>
  }

  lemma SqlListStep(lay: Layout, db: Db, op: Op, p: Pair)
    requires Lawful(lay)
    ensures SqlChanges(SqlLists(lay, p), ListChange(Exactly(p), SplitsInto(lay, p)), db, op, SqlStep(lay, db, op).0)
  {
    SqlListed(lay, db, p);
    SqlListed(lay, SqlStep(lay, db, op).0, p);
    SqlStepLists(lay, db, op);
  }

  lemma SqlStatsStep(lay: Layout, db: Db, op: Op, p: Pair)
    ensures SqlChanges(SqlGet(lay, GetStats(p)), StatsChange(Exactly(p)), db, op, SqlStep(lay, db, op).0)
  {
    match op
    case DeleteClient(who) => SqlDeleteLeaves(lay, db, lay.clientKey(who));
    case DeleteSession(who) => SqlDeleteLeaves(lay, db, lay.sessionKey(who));
    case RemoveDomain(q) => SqlDeleteLeaves(lay, db, lay.listKey(q));
    case _ =>
  }

  /** After any run, what the SQLite store gives for a client or a session is what was last written under its name. */
  lemma SqlReadsNames(lay: Layout, db: Db, run: Run, name: string)
    requires Lawful(lay)
    ensures var after := SqlAfter(lay, db, run);
      && SqlStep(lay, after, GetClient(name)).1 == After(SqlStep(lay, db, GetClient(name)).1, run, ClientChange(name))
      && SqlStep(lay, after, GetSession(name)).1
           == After(SqlStep(lay, db, GetSession(name)).1, run, SessionChange(name))
  {
    forall d, op {:trigger SqlStep(lay, d, op)}
      ensures SqlChanges(SqlGet(lay, GetClient(name)), ClientChange(name), d, op, SqlStep(lay, d, op).0)
      ensures SqlChanges(SqlGet(lay, GetSession(name)), SessionChange(name), d, op, SqlStep(lay, d, op).0)
    {
      SqlClientStep(lay, d, op, name);
      SqlSessionStep(lay, d, op, name);
    }
    SqlReads(lay, db, run, SqlGet(lay, GetClient(name)), ClientChange(name));
    SqlReads(lay, db, run, SqlGet(lay, GetSession(name)), SessionChange(name));
  }

  /** An entry is listed once it was added, until a removal whose key comes apart into it. */
  lemma SqlReadsLists(lay: Layout, db: Db, run: Run, p: Pair)
    requires Lawful(lay)
    ensures Listed(SqlStep(lay, SqlAfter(lay, db, run), ListDomains(p.first)).1, p.second)
         == After(Listed(SqlStep(lay, db, ListDomains(p.first)).1, p.second), run,
                  ListChange(Exactly(p), SplitsInto(lay, p)))
  {
    var see, change := SqlLists(lay, p), ListChange(Exactly(p), SplitsInto(lay, p));
    forall d, op {:trigger SqlStep(lay, d, op)} ensures SqlChanges(see, change, d, op, SqlStep(lay, d, op).0) {
      SqlListStep(lay, d, op, p);
    }
    SqlReads(lay, db, run, see, change);
  }

  /** A statistics row is the one last put into its slot. */
  lemma SqlReadsStats(lay: Layout, db: Db, run: Run, p: Pair)
    ensures SqlStep(lay, SqlAfter(lay, db, run), GetStats(p)).1
         == After(SqlStep(lay, db, GetStats(p)).1, run, StatsChange(Exactly(p)))
  {
    var see, change := SqlGet(lay, GetStats(p)), StatsChange(Exactly(p));
    forall d, op {:trigger SqlStep(lay, d, op)} ensures SqlChanges(see, change, d, op, SqlStep(lay, d, op).0) {
      SqlStatsStep(lay, d, op, p);
    }
    SqlReads(lay, db, run, see, change);
  }

  /** With colon-free first parts an entry or a slot is touched by what names it and by nothing else. */
  lemma OwnKey(lay: Layout, p: Pair, q: Pair)
    requires Lawful(lay) && Separable(p) && ColonFree(q.first)
    ensures lay.listKey(q) == lay.listKey(p) <==> q == p
    ensures lay.statsKey(q) == lay.statsKey(p) <==> q == p
    ensures lay.listOf(lay.listKey(q)) == Some(p) <==> q == p
  {
    assert PairLaw(lay, p) && PairLaw(lay, q);
  }

  // ----- listings and results

  /** A listing of clients holds exactly the clients that can be got. */
  lemma JsonListsWhatItGets(lay: Layout, data: Flat, c: Client)
    requires Lawful(lay)
    ensures var r := JsonStep(lay, data, ListClients).1;
      r.ClientsAre? && (c in r.clients <==> exists k :: JsonStep(lay, data, GetClient(k)).1 == ClientIs(c))
  {
    if c in ClientsIn(lay, data) {
      var key :| key in data && lay.kind(key) == ClientKind && data[key].ClientValue? && data[key].client == c;
      assert KeyLaw(lay, key);
      assert JsonStep(lay, data, GetClient(lay.clientOf(key))).1 == ClientIs(c);
    }
    if k :| JsonStep(lay, data, GetClient(k)).1 == ClientIs(c) {
      assert NameLaw(lay, k);
      assert lay.clientKey(k) in data;
    }
  }

  lemma SqlListsWhatItGets(lay: Layout, db: Db, c: Client)
    ensures var r := SqlStep(lay, db, ListClients).1;
      r.ClientsAre? && (c in r.clients <==> exists k :: SqlStep(lay, db, GetClient(k)).1 == ClientIs(c))
  {
    if c in db.clients.Values {
      var k :| k in db.clients && db.clients[k] == c;
      assert SqlStep(lay, db, GetClient(k)).1 == ClientIs(c);
    }
  }

  /** A granularity's rows are those that can be got for it, by bucket. */
  lemma JsonStatsAreGot(lay: Layout, data: Flat, g: string, b: string, row: StatsRow)
    requires Lawful(lay)
    ensures var r := JsonStep(lay, data, ListStats(g)).1;
      r.StatsAre? && (b in r.rows && r.rows[b] == row
        <==> JsonStep(lay, data, GetStats(Pair(g, b))).1 == StatsIs(row))
  {
    StatsInAt(lay, data, g, b);
    assert JsonStep(lay, data, ListStats(g)).1 == StatsAre(StatsIn(lay, data, g));
  }

  lemma SqlStatsAreGot(lay: Layout, db: Db, g: string, b: string, row: StatsRow)
    ensures var r := SqlStep(lay, db, ListStats(g)).1;
      r.StatsAre? && (b in r.rows && r.rows[b] == row <==> SqlStep(lay, db, GetStats(Pair(g, b))).1 == StatsIs(row))
  {
    var p := Pair(g, b);
    assert p.first == g && p.second == b;
  }

  /** Clients are listed in rising order of keys, and domains in rising order. */
  predicate Rising(r: Result) {
    && (r.ClientsAre? ==> forall i, j | 0 <= i < j < |r.clients| :: Less(r.clients[i].key, r.clients[j].key))
    && (r.DomainsAre? ==> forall i, j | 0 <= i < j < |r.domains| :: Less(r.domains[i], r.domains[j]))
  }

  lemma ListingRises(all: set<Client>)
    requires forall a, b | a in all && b in all && a.key == b.key :: a == b
    ensures Rising(ClientsAre(Listing(all, ClientBefore)))
  {
    var listed, found := Listing(all, ClientBefore), Enumerate(all);
    ClientOrderIsTotal(found);
    SortSorts(found, ClientBefore);
    PermutationKeepsDistinct(found, listed);
    forall i, j | 0 <= i < j < |listed| ensures Less(listed[i].key, listed[j].key) {
      LessTotal(listed[i].key, listed[j].key);
      assert listed[i] in listed && listed[j] in listed;
    }
  }

  lemma DomainListingRises(all: set<string>)
    ensures Rising(DomainsAre(Listing(all, Less)))
  {
    var listed, found := Listing(all, Less), Enumerate(all);
    LessIsStrictTotal(found);
    SortSorts(found, Less);
    PermutationKeepsDistinct(found, listed);
    forall i, j | 0 <= i < j < |listed| ensures Less(listed[i], listed[j]) { LessTotal(listed[i], listed[j]); }
  }

  lemma JsonClientsRise(lay: Layout, data: Flat)
    requires Lawful(lay) && Typed(lay, data)
    ensures Rising(JsonStep(lay, data, ListClients).1)
  {
    forall a, b | a in ClientsIn(lay, data) && b in ClientsIn(lay, data) && a.key == b.key ensures a == b {
      var i :| i in data && lay.kind(i) == ClientKind && data[i].ClientValue? && data[i].client == a;
      var j :| j in data && lay.kind(j) == ClientKind && data[j].ClientValue? && data[j].client == b;
      ClientsApart(lay, data, i, j);
    }
    ListingRises(ClientsIn(lay, data));
  }

  lemma SqlClientsRise(lay: Layout, db: Db)
    requires Keyed(db)
    ensures Rising(SqlStep(lay, db, ListClients).1)
  {
    ListingRises(db.clients.Values);
  }

  lemma JsonDomainsRise(lay: Layout, data: Flat, l: string)
    ensures Rising(JsonStep(lay, data, ListDomains(l)).1)
  {
    DomainListingRises(DomainsIn(lay, data, l));
    assert JsonStep(lay, data, ListDomains(l)).1 == DomainsAre(Listing(DomainsIn(lay, data, l), Less));
  }

  lemma SqlListsDomains(lay: Layout, db: Db, l: string)
    ensures SqlStep(lay, db, ListDomains(l)).1 == DomainsAre(Listing(TableDomains(db.lists, l), Less))
  {
  }

  lemma SqlDomainsRise(lay: Layout, db: Db, l: string)
    ensures Rising(SqlStep(lay, db, ListDomains(l)).1)
  {
    DomainListingRises(TableDomains(db.lists, l));
    SqlListsDomains(lay, db, l);
  }

  /** Statistics rows under decimal buckets, each its row's own, are listed in rising order of numbers. */
  lemma DecimalRises(listed: seq<StatsRow>, rows: map<string, StatsRow>, i: nat, j: nat)
    requires Lists(listed, rows) && (forall b | b in rows :: rows[b].bucket == b && Canonical(b)) && i < j < |listed|
    ensures IsNumber(listed[i].bucket) && IsNumber(listed[j].bucket)
    ensures ParseInt(listed[i].bucket).value < ParseInt(listed[j].bucket).value
  {
    var a, b := listed[i], listed[j];
    DecimalIsOrderable(listed, rows);
    OrderTotalIff(listed);
    HeldUnderItsBucket(listed, rows, i);
    HeldUnderItsBucket(listed, rows, j);
    assert !BucketBefore(b, a);
    ListedOnce(listed, rows, i);
    DistinctIfOnce(listed, i, j);
    if ParseInt(a.bucket) == ParseInt(b.bucket) { CanonicalInjective(a.bucket, b.bucket); }
  }

  lemma ListedOnce(listed: seq<StatsRow>, rows: map<string, StatsRow>, i: nat)
    requires Lists(listed, rows) && (forall b | b in rows :: rows[b].bucket == b && Canonical(b)) && i < |listed|
    ensures multiset(listed)[listed[i]] <= 1
  {
    var r := listed[i];
    assert Holding(rows, r) <= {r.bucket};
    SubsetSize(Holding(rows, r), {r.bucket});
    assert multiset(listed)[r] == |Holding(rows, r)|;
  }

  lemma HeldUnderItsBucket(listed: seq<StatsRow>, rows: map<string, StatsRow>, i: nat)
    requires Lists(listed, rows) && (forall b | b in rows :: rows[b].bucket == b && Canonical(b)) && i < |listed|
    ensures listed[i].bucket in rows && rows[listed[i].bucket] == listed[i] && Canonical(listed[i].bucket)
  {
    var r := listed[i];
    assert r in listed && multiset(listed)[r] > 0;
    assert Holding(rows, r) != {};
    var b :| b in Holding(rows, r);
  }

  lemma DistinctIfOnce(listed: seq<StatsRow>, i: nat, j: nat)
    requires i < j < |listed| && multiset(listed)[listed[i]] <= 1
    ensures listed[i] != listed[j]
  {
    var a, b := listed[..j], listed[j..];
    assert listed == a + b;
    assert multiset(listed)[listed[i]] == multiset(a)[listed[i]] + multiset(b)[listed[i]];
    assert a[i] in multiset(a) && b[0] in multiset(b);
  }

  /** What writing reports: a missing part, or done; and of a removal whether there was anything to remove. */
  predicate Reports(op: Op, before: Result, r: Result) {
    match op
    case UpsertClient(c) => r == if c.key == "" then Required else Done
    case UpsertSession(s) => r == if s.token == "" then Required else Done
    case AddDomain(p) => r == if p.first == "" || p.second == "" then Required else Done
    case PutStats(p, _) => r == if p.first == "" || p.second == "" then Required else Done
    case DeleteClient(_) => r == if before == NotFound then NotFound else Done
    case DeleteSession(_) => r == if before == NotFound then NotFound else Done
    case DeleteExpired(_) => r == Done
    case _ => true
  }

  /** The read that tells whether there is something to remove. */
  function Before(op: Op): Op {
    match op
    case DeleteClient(k) => GetClient(k)
    case DeleteSession(t) => GetSession(t)
    case _ => op
  }

  lemma JsonReports(lay: Layout, data: Flat, op: Op)
    ensures Reports(op, JsonStep(lay, data, Before(op)).1, JsonStep(lay, data, op).1)
  {
  }

  /** In the SQLite store, wherever the tables mirror the rows. */
  lemma SqlReports(lay: Layout, db: Db, op: Op)
    requires Lawful(lay) && Mirror(lay, db)
    ensures Reports(op, SqlStep(lay, db, Before(op)).1, SqlStep(lay, db, op).1)
  {
    match op
    case DeleteClient(k) => assert NameLaw(lay, k) && ClientAt(lay, Rows(db), db.clients, k);
    case DeleteSession(t) => assert NameLaw(lay, t) && SessionAt(lay, Rows(db), db.sessions, t);
    case _ =>
  }
}

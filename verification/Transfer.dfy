/**
 * Raw rows, and import from and export to the JSON store's rows (putRawJSON in internal/store/sqlite.go, and
 * internal/store/transfer.go).
 */
module Transfer {
  import opened Options
  import opened Ordering
  import opened StoreKeys
  import opened StatsBuckets
  import opened StorePayloads
  import opened StoreSpec
  import opened Stores
  import opened Upserts
  import opened Migrations

  // ----- raw rows

  /** putRawJSON: the row as it is, and whatever its payload decodes to in the table. */
  function PutRaw(lay: Layout, db: Db, key: string, value: Value): (Db, Result) {
    match lay.kind(key)
    case ClientKind =>
      if !value.ClientValue? then (db, Malformed)
      else (PutClientRow(lay, db, key, NamedClient(value.client, lay.clientOf(key)), value), Done)
    case SessionKind =>
      if !value.SessionValue? then (db, Malformed)
      else (PutSessionRow(lay, db, key, NamedSession(value.session, lay.sessionOf(key)), value), Done)
    case ListKind =>
      (match lay.listOf(key)
       case None => (db, InvalidKey)
       case Some(p) => (PutListRow(lay, db, key, p, value), Done))
    case StatsKind =>
      (match lay.statsOf(key)
       case None => (db, InvalidKey)
       case Some(p) =>
         if !value.StatsValue? then (db, Malformed)
           else (PutStatsRow(lay, db, key, p, value.row.counters, value), Done))
    case OtherKind => if lay.decodes(key, value) then (PutKv(lay, db, key, value), Done) else (db, Malformed)
  }

  lemma PutOtherKeeps(lay: Layout, data: Flat, rows: Flat, db: Db, key: string, value: Value)
    requires Lawful(lay) && Related(lay, data, rows, db) && lay.kind(key) == OtherKind && lay.decodes(key, value)
    ensures Related(lay, data[key := value], rows[key := value], PutKv(lay, db, key, value))
  {
    RowsPut(lay, db, key, value);
    PutBoth(lay, data, rows, key, value);
    OtherClientsStand(lay, rows, rows[key := value], OtherKind, db);
    OtherSessionsStand(lay, rows, rows[key := value], OtherKind, db);
    OtherListsStand(lay, rows, rows[key := value], OtherKind, db);
    OtherStatsStand(lay, rows, rows[key := value], OtherKind, db);
  }

  /** A raw row whose payload fits its key is taken and keeps the mirror. */
  lemma PutRawKeeps(lay: Layout, rows: Flat, db: Db, key: string, value: Value)
    requires Lawful(lay) && Related(lay, rows, rows, db) && FitsKey(lay, key, value)
    ensures PutRaw(lay, db, key, value).1 == Done
    ensures Related(lay, rows[key := value], rows[key := value], PutRaw(lay, db, key, value).0)
  {
    assert KeyLaw(lay, key);
    match lay.kind(key)
    case ClientKind => PutClientKeeps(lay, rows, rows, db, value.client);
    case SessionKind => PutSessionKeeps(lay, rows, rows, db, value.session);
    case ListKind => PutListKeeps(lay, rows, rows, db, lay.listOf(key).value, value);
    case StatsKind => PutStatsKeeps(lay, rows, rows, db, lay.statsOf(key).value, value.row.counters);
    case OtherKind => PutOtherKeeps(lay, rows, rows, db, key, value);
  }

  lemma MismatchedClient(lay: Layout, rows: Flat, db: Db, key: string, value: Value)
    requires Lawful(lay) && Related(lay, rows, rows, db) && lay.kind(key) == ClientKind && value.ClientValue?
    requires value.client.key != lay.clientOf(key)
    ensures !Mirror(lay, PutRaw(lay, db, key, value).0)
  {
    var k, after := lay.clientOf(key), PutRaw(lay, db, key, value).0;
    var c := NamedClient(value.client, k);
    assert KeyLaw(lay, key);
    RowsPut(lay, db.(clients := db.clients[c.key := c]), key, value);
    assert ClientAt(lay, rows, db.clients, k) && FitsAt(lay, rows, key);
    assert !ClientAt(lay, Rows(after), after.clients, k);
  }

  lemma MismatchedSession(lay: Layout, rows: Flat, db: Db, key: string, value: Value)
    requires Lawful(lay) && Related(lay, rows, rows, db) && lay.kind(key) == SessionKind && value.SessionValue?
    requires value.session.token != lay.sessionOf(key)
    ensures !Mirror(lay, PutRaw(lay, db, key, value).0)
  {
    var t, after := lay.sessionOf(key), PutRaw(lay, db, key, value).0;
    var s := NamedSession(value.session, t);
    assert KeyLaw(lay, key) && NameLaw(lay, t);
    RowsPut(lay, db.(sessions := db.sessions[s.token := s]), key, value);
    assert SessionAt(lay, rows, db.sessions, t) && FitsAt(lay, rows, key);
    assert !SessionAt(lay, Rows(after), after.sessions, t);
  }

  lemma StatsRowMirrors(lay: Layout, rows: Flat, db: Db, key: string, value: Value)
    requires Lawful(lay) && Related(lay, rows, rows, db) && value.StatsValue? && lay.statsOf(key).Some?
    ensures Mirror(lay, PutRaw(lay, db, key, value).0) <==> value.row.bucket == lay.statsOf(key).value.second
  {
    var p, after := lay.statsOf(key).value, PutRaw(lay, db, key, value).0;
    assert KeyLaw(lay, key);
    RowsPut(lay, db.(stats := db.stats[p := value.row.counters]), key, value);
    if Mirror(lay, after) {
      assert CountersAt(lay, Rows(after), after.stats, p);
    } else if value.row.bucket == p.second {
      var rows' := rows[key := value];
      forall q ensures CountersAt(lay, rows', after.stats, q) {
        assert PairLaw(lay, q) && CountersAt(lay, rows, db.stats, q);
      }
      OtherClientsStand(lay, rows, rows', StatsKind, db);
      OtherSessionsStand(lay, rows, rows', StatsKind, db);
      OtherListsStand(lay, rows, rows', StatsKind, db);
    }
  }

  /** A raw row that is taken keeps the mirror exactly when its payload carries the name its key gives it. */
  lemma PutRawMirrorsIff(lay: Layout, rows: Flat, db: Db, key: string, value: Value)
    requires Lawful(lay) && Related(lay, rows, rows, db) && PutRaw(lay, db, key, value).1 == Done
    ensures Mirror(lay, PutRaw(lay, db, key, value).0) <==> NamesMatch(lay, key, value)
  {
    if lay.kind(key) == StatsKind {
      StatsRowMirrors(lay, rows, db, key, value);
    } else if NamesMatch(lay, key, value) {
      PutRawKeeps(lay, rows, db, key, value);
    } else if lay.kind(key) == ClientKind {
      MismatchedClient(lay, rows, db, key, value);
    } else {
      MismatchedSession(lay, rows, db, key, value);
    }
  }

  // ----- what is taken

  /** A row that putRawJSON takes: the payload has the type of its collection, and a paired key comes apart. */
  predicate Decodes(lay: Layout, key: string, value: Value) {
    match lay.kind(key)
    case ClientKind => value.ClientValue?
    case SessionKind => value.SessionValue?
    case ListKind => lay.listOf(key).Some?
    case StatsKind => lay.statsOf(key).Some? && value.StatsValue?
    case OtherKind => lay.decodes(key, value)
  }

  /**
   * So what the JSON store writes for a list entry or a statistics row imports iff id or granularity has no
   * leading colon.
   */
  lemma WrittenPairsImportIff(snapshots: (string, Value) -> bool, p: Pair, row: StatsRow)
    requires p.first != "" && p.second != ""
    ensures var lay := SisLayout(snapshots); Decodes(lay, lay.listKey(p), TrueValue) <==> p.first[0] != ':'
    ensures var lay := SisLayout(snapshots);
      Decodes(lay, lay.statsKey(p), StatsValue(StoredRow(p, row))) <==> p.first[0] != ':'
  {
    SisPairLaw(snapshots, p);
    ComesApartIff("customlist", p);
    ComesApartIff("stats", p);
  }

  ghost predicate AllDecode(lay: Layout, rows: Flat) {
    forall key | key in rows :: Decodes(lay, key, rows[key])
  }

  lemma DecodingOpens(lay: Layout, rows: Flat)
    requires Lawful(lay) && AllDecode(lay, rows)
    ensures Openable(lay, rows)
  {
    forall key | key in rows ensures OpensAt(lay, key, rows[key]) {
      assert Decodes(lay, key, rows[key]) && KeyLaw(lay, key);
    }
  }

  /** Rows that the stores write regularly fit their keys, and rows that fit decode. */
  lemma FittingDecodes(lay: Layout, rows: Flat)
    requires WellFormed(lay, rows)
    ensures AllDecode(lay, rows)
  {
    forall key | key in rows ensures Decodes(lay, key, rows[key]) { assert FitsAt(lay, rows, key); }
  }

  lemma FittingNamed(lay: Layout, rows: Flat)
    requires WellFormed(lay, rows)
    ensures AllNamed(lay, rows)
  {
    forall key | key in rows ensures NamesMatch(lay, key, rows[key]) { assert FitsAt(lay, rows, key); }
  }

  // ----- import

  /** Commits a transaction. */
  method Commit(store: SqliteStore, db: Db)
    modifies store
    ensures store.Now() == db
  {
    store.kv, store.clients, store.sessions := db.kv, db.clients, db.sessions;
    store.lists, store.stats := db.lists, db.stats;
  }

  /** What a new database holds. */
  function FreshRows(lay: Layout): Flat {
    map[lay.versionKey := VersionValue(SCHEMA_VERSION)]
  }

  /** A new database has a version row and nothing in its tables. */
  lemma EmptyOpened(lay: Layout, db: Db)
    requires Lawful(lay) && OpenedAs(lay, EmptyDb(), db)
    ensures Rows(db) == FreshRows(lay) && SameTables(db, EmptyDb())
  {
    assert Rows(EmptyDb()) == map[];
    OpenedRows(lay, EmptyDb(), db);
    WrittenStays(map[], PendingClients(lay, map[]), db.clients);
    WrittenStays(map[], PendingSessions(lay, map[]), db.sessions);
    WrittenStays(map[], PendingStats(lay, map[]), db.stats);
  }

  /** The database holds exactly these rows, fitting and mirrored. */
  ghost predicate Holds(lay: Layout, db: Db, rows: Flat) {
    Related(lay, rows, rows, db)
  }

  lemma RawRows(lay: Layout, db: Db, key: string, value: Value)
    ensures PutRaw(lay, db, key, value).1 == Done <==> Decodes(lay, key, value)
    ensures Decodes(lay, key, value) ==> Rows(PutRaw(lay, db, key, value).0) == Rows(db)[key := value]
  {
    if Decodes(lay, key, value) {
      SameKvSameRows(PutRaw(lay, db, key, value).0, PutKv(lay, db, key, value));
      RowsPut(lay, db, key, value);
    }
  }

  lemma SameKvSameRows(a: Db, b: Db)
    requires a.kv == b.kv
    ensures Rows(a) == Rows(b)
  {
  }

  function RawClients(lay: Layout, table: map<string, Client>, key: string, value: Value): map<string, Client> {
    if lay.kind(key) == ClientKind && value.ClientValue? then
      var c := NamedClient(value.client, lay.clientOf(key)); table[c.key := c]
    else table
  }

  function RawSessions(lay: Layout, table: map<string, Session>, key: string, value: Value): map<string, Session> {
    if lay.kind(key) == SessionKind && value.SessionValue? then
      var s := NamedSession(value.session, lay.sessionOf(key)); table[s.token := s]
    else table
  }

  function RawStats(lay: Layout, table: map<Pair, Counters>, key: string, value: Value): map<Pair, Counters> {
    if lay.statsOf(key).Some? && value.StatsValue? then table[lay.statsOf(key).value := value.row.counters] else table
  }

  function RawLists(lay: Layout, table: set<Pair>, key: string): set<Pair> {
    if lay.listOf(key).Some? then table + {lay.listOf(key).value} else table
  }

  /** What putRawJSON does, table by table. */
  lemma RawTables(lay: Layout, db: Db, key: string, value: Value)
    requires Lawful(lay) && Decodes(lay, key, value)
    ensures PutRaw(lay, db, key, value).0
         == Db(db.kv[key := Tagged(lay.collection(key), value)], RawClients(lay, db.clients, key, value),
               RawSessions(lay, db.sessions, key, value), RawLists(lay, db.lists, key),
               RawStats(lay, db.stats, key, value))
  {
    assert KeyLaw(lay, key);
  }

  lemma RawClientsFill(lay: Layout, rows: Flat, start: map<string, Client>, now: map<string, Client>, key: string,
                       value: Value)
    requires key !in rows && WrittenOver(start, PendingClients(lay, rows), now)
    ensures WrittenOver(start, PendingClients(lay, rows[key := value]), RawClients(lay, now, key, value))
  {
    var pending, pending' := PendingClients(lay, rows), PendingClients(lay, rows[key := value]);
    if lay.kind(key) == ClientKind && value.ClientValue? {
      var c := NamedClient(value.client, lay.clientOf(key));
      assert pending' == pending[key := (c.key, c)];
      OneMoreWritten(start, pending, now, key, (c.key, c));
    } else {
      assert pending' == pending;
    }
  }

  lemma RawSessionsFill(lay: Layout, rows: Flat, start: map<string, Session>, now: map<string, Session>, key: string,
                        value: Value)
    requires key !in rows && WrittenOver(start, PendingSessions(lay, rows), now)
    ensures WrittenOver(start, PendingSessions(lay, rows[key := value]), RawSessions(lay, now, key, value))
  {
    var pending, pending' := PendingSessions(lay, rows), PendingSessions(lay, rows[key := value]);
    if lay.kind(key) == SessionKind && value.SessionValue? {
      var s := NamedSession(value.session, lay.sessionOf(key));
      assert pending' == pending[key := (s.token, s)];
      OneMoreWritten(start, pending, now, key, (s.token, s));
    } else {
      assert pending' == pending;
    }
  }

  lemma RawStatsFill(lay: Layout, rows: Flat, start: map<Pair, Counters>, now: map<Pair, Counters>, key: string,
                     value: Value)
    requires key !in rows && WrittenOver(start, PendingStats(lay, rows), now)
    ensures WrittenOver(start, PendingStats(lay, rows[key := value]), RawStats(lay, now, key, value))
  {
    var pending, pending' := PendingStats(lay, rows), PendingStats(lay, rows[key := value]);
    if lay.statsOf(key).Some? && value.StatsValue? {
      var row := (lay.statsOf(key).value, value.row.counters);
      assert pending' == pending[key := row];
      OneMoreWritten(start, pending, now, key, row);
    } else {
      assert pending' == pending;
    }
  }

  lemma RawListsFill(lay: Layout, rows: Flat, start: set<Pair>, now: set<Pair>, key: string, value: Value)
    requires now == start + ListEntries(lay, rows)
    ensures RawLists(lay, now, key) == start + ListEntries(lay, rows[key := value])
  {
    var rows' := rows[key := value];
    forall j | j in rows && lay.listOf(j).Some? ensures lay.listOf(j).value in ListEntries(lay, rows') {
      assert j in rows';
    }
    assert key in rows';
  }

  /** A raw row that is taken is written over the tables as the backfill would. */
  lemma RawFills(lay: Layout, rows: Flat, start: Db, now: Db, key: string, value: Value)
    requires Lawful(lay) && Decodes(lay, key, value) && key !in rows && TablesFilled(lay, rows, start, now)
    ensures TablesFilled(lay, rows[key := value], start, PutRaw(lay, now, key, value).0)
  {
    RawTables(lay, now, key, value);
    RawClientsFill(lay, rows, start.clients, now.clients, key, value);
    RawSessionsFill(lay, rows, start.sessions, now.sessions, key, value);
    RawListsFill(lay, rows, start.lists, now.lists, key, value);
    RawStatsFill(lay, rows, start.stats, now.stats, key, value);
  }

  lemma RawKeyed(lay: Layout, db: Db, key: string, value: Value)
    requires Lawful(lay) && Keyed(db)
    ensures Keyed(PutRaw(lay, db, key, value).0)
  {
    if Decodes(lay, key, value) { RawTables(lay, db, key, value); }
  }

  method PutRow(store: SqliteStore, key: string, value: Value) returns (ok: bool)
    requires store.Valid()
    modifies store
    ensures store.Valid()
    ensures ok <==> Decodes(store.lay, key, value)
    ensures store.Now() == PutRaw(store.lay, old(store.Now()), key, value).0
    ensures ok ==> Rows(store.Now()) == Rows(old(store.Now()))[key := value]
  {
    RawRows(store.lay, store.Now(), key, value);
    RawKeyed(store.lay, store.Now(), key, value);
    var result := PutRaw(store.lay, store.Now(), key, value);
    Commit(store, result.0);
    ok := result.1 == Done;
  }

  /** All rows but `rest` are written. */
  ghost predicate WrittenBut(lay: Layout, rows: Flat, rest: set<string>, start: Db, now: Db) {
    && Rows(now) == Rows(start) + (rows - rest)
    && AllDecode(lay, rows - rest)
    && TablesFilled(lay, rows - rest, start, now)
  }

  lemma OneMoreRaw(lay: Layout, rows: Flat, rest: set<string>, start: Db, now: Db, key: string)
    requires Lawful(lay) && WrittenBut(lay, rows, rest, start, now)
    requires key in rest && key in rows && Decodes(lay, key, rows[key])
    ensures WrittenBut(lay, rows, rest - {key}, start, PutRaw(lay, now, key, rows[key]).0)
  {
    RawRows(lay, now, key, rows[key]);
    RawFills(lay, rows - rest, start, now, key, rows[key]);
    OneMoreRow(Rows(start), rows, rest, key);
  }

  /** Writes rows in some order, until one is refused; the tables end as a backfill from the rows would leave them. */
  method PutRows(store: SqliteStore, rows: Flat) returns (ok: bool)
    requires store.Valid()
    modifies store
    ensures store.Valid()
    ensures ok <==> AllDecode(store.lay, rows)
    ensures ok ==> Rows(store.Now()) == Rows(old(store.Now())) + rows
    ensures ok ==> TablesFilled(store.lay, rows, old(store.Now()), store.Now())
  {
    ghost var start := store.Now();
    var rest := rows.Keys;
    NothingWritten(store.lay, rows, start);
    while rest != {}
      invariant store.Valid() && rest <= rows.Keys && WrittenBut(store.lay, rows, rest, start, store.Now())
    {
      var key :| key in rest;
      ok := PutOneMore(store, rows, key, rest, start);
      if !ok { return; }
      rest := rest - {key};
    }
    AllWritten(store.lay, rows, start, store.Now());
    ok := true;
  }

  method PutOneMore(store: SqliteStore, rows: Flat, key: string, ghost rest: set<string>, ghost start: Db)
    returns (ok: bool)
    requires store.Valid() && key in rest && key in rows && WrittenBut(store.lay, rows, rest, start, store.Now())
    modifies store
    ensures store.Valid()
    ensures ok <==> Decodes(store.lay, key, rows[key])
    ensures ok ==> WrittenBut(store.lay, rows, rest - {key}, start, store.Now())
  {
    ghost var before := store.Now();
    ok := PutRow(store, key, rows[key]);
    if ok { OneMoreRaw(store.lay, rows, rest, start, before, key); }
  }

  lemma NothingWritten(lay: Layout, rows: Flat, start: Db)
    ensures WrittenBut(lay, rows, rows.Keys, start, start)
  {
    assert rows - rows.Keys == map[];
  }

  lemma AllWritten(lay: Layout, rows: Flat, start: Db, now: Db)
    requires WrittenBut(lay, rows, {}, start, now)
    ensures AllDecode(lay, rows) && Rows(now) == Rows(start) + rows && TablesFilled(lay, rows, start, now)
  {
    assert rows - {} == rows;
  }

  lemma OneMoreRow(base: Flat, rows: Flat, rest: set<string>, key: string)
    requires key in rest && key in rows
    ensures (base + (rows - rest))[key := rows[key]] == base + (rows - (rest - {key}))
    ensures (rows - rest)[key := rows[key]] == rows - (rest - {key})
  {
  }

  /** Over empty tables the mirror is a matter of the names alone. */
  lemma ImportMirrors(lay: Layout, rows: Flat, db: Db)
    requires Lawful(lay) && AllDecode(lay, rows) && TablesFilled(lay, rows, EmptyDb(), db)
    ensures Mirrors(lay, FreshRows(lay) + rows, db) <==> AllNamed(lay, rows)
  {
    var all := FreshRows(lay) + rows;
    DecodingOpens(lay, rows);
    assert KeyLaw(lay, lay.versionKey);
    SamePending(lay, rows, all);
    EnsureMirrorsIff(lay, all, EmptyDb(), db);
    assert AllNamed(lay, all) <==> AllNamed(lay, rows) by {
      assert forall key | key in rows :: key in all && all[key] == rows[key];
    }
  }

  /** Opening an imported database leaves its tables as they are, if the rows are settled, fitting or not. */
  lemma ImportedStays(lay: Layout, rows: Flat, db: Db, after: Db)
    requires Lawful(lay) && Settled(lay, rows) && Rows(db) == FreshRows(lay) + rows
    requires TablesFilled(lay, rows, EmptyDb(), db) && OpenedAs(lay, db, after)
    ensures SameTables(after, db)
  {
    SamePending(lay, rows, Rows(db));
    FilledTwice(lay, rows, EmptyDb(), db, after);
  }

  lemma ImportHolds(lay: Layout, rows: Flat, db: Db)
    requires Lawful(lay) && WellFormed(lay, rows) && TablesFilled(lay, rows, EmptyDb(), db)
    requires Rows(db) == FreshRows(lay) + rows
    ensures Holds(lay, db, FreshRows(lay) + rows)
  {
    FittingDecodes(lay, rows);
    FittingNamed(lay, rows);
    ImportMirrors(lay, rows, db);
    forall key ensures FitsAt(lay, Rows(db), key) { assert FitsAt(lay, rows, key); }
    SameAsItself(lay, Rows(db));
  }

  /**
   * Writes every row into a new database. It succeeds exactly when every row decodes and no key is empty. Then the
   * database holds the rows, its tables are what a backfill from them would leave, and they mirror the rows exactly
   * when every payload carries its key's name.
   */
  method Import(lay: Layout, rows: Flat) returns (ok: bool, store: SqliteStore)
    requires Lawful(lay)
    ensures fresh(store) && store.lay == lay && store.Valid()
    ensures ok <==> "" !in rows && AllDecode(lay, rows)
    ensures ok ==> Rows(store.Now()) == FreshRows(lay) + rows && TablesFilled(lay, rows, EmptyDb(), store.Now())
    ensures ok ==> (Mirror(lay, store.Now()) <==> AllNamed(lay, rows))
    ensures WellFormed(lay, rows) && "" !in rows ==> ok && Holds(lay, store.Now(), FreshRows(lay) + rows)
  {
    store := new SqliteStore(lay);
    if "" in rows { return false, store; }
    ok := RunMigrations(store);
    assert ok by { assert Rows(EmptyDb()) == map[]; }
    EmptyOpened(lay, store.Now());
    ok := PutRows(store, rows);
    if WellFormed(lay, rows) { FittingDecodes(lay, rows); }
    if !ok { return; }
    ImportMirrors(lay, rows, store.Now());
    if WellFormed(lay, rows) { ImportHolds(lay, rows, store.Now()); }
  }

  // ----- export

  /** `SELECT key, value FROM kv WHERE key >= ? AND key < ?`. */
  function Scan(rows: Flat, prefix: string): Flat {
    map key | key in rows && InRange(key, prefix) :: rows[key]
  }

  /** Opens the database and writes out every row the scan of the empty prefix selects. */
  method Export(store: SqliteStore) returns (ok: bool, rows: Flat)
    requires store.Valid()
    modifies store
    ensures store.Valid()
    ensures ok <==> Openable(store.lay, Rows(old(store.Now())))
    ensures ok ==> rows == Scan(WithCurrentVersion(store.lay, Rows(old(store.Now()))), "")
  {
    rows := map[];
    ok := RunMigrations(store);
    if ok { rows := Scan(Rows(store.Now()), ""); }
  }

  /** Keys are UTF-8 text, in which byte 0xff never occurs. */
  ghost predicate TextKeys(rows: Flat) {
    forall key | key in rows :: IsBytes(key) && TOP_BYTE !in key
  }

  lemma ScanAll(rows: Flat)
    requires TextKeys(rows)
    ensures Scan(rows, "") == rows
  {
    forall key | key in rows ensures InRange(key, "") { ScanSelectsPrefix(key, ""); }
  }

  lemma VersionOfImported(lay: Layout, rows: Flat)
    ensures WithCurrentVersion(lay, FreshRows(lay) + rows) == WithCurrentVersion(lay, rows)
  {
  }

  lemma ImportedOpens(lay: Layout, rows: Flat)
    requires Lawful(lay) && AllDecode(lay, rows)
    ensures Openable(lay, FreshRows(lay) + rows)
  {
    DecodingOpens(lay, rows);
    var all := FreshRows(lay) + rows;
    forall key | key in all ensures OpensAt(lay, key, all[key]) {
      if key in rows { assert OpensAt(lay, key, rows[key]); } else { assert KeyLaw(lay, key); }
    }
  }

  /**
   * Import and export of any rows: refused exactly when a row does not decode or a key is empty, and
   * otherwise what comes back is the same rows, but for a schema version row that was behind.
   */
  method ImportThenExport(lay: Layout, rows: Flat) returns (ok: bool, exported: Flat)
    requires Lawful(lay)
    ensures ok <==> "" !in rows && AllDecode(lay, rows)
    ensures ok ==> exported == Scan(WithCurrentVersion(lay, rows), "")
    ensures ok && TextKeys(WithCurrentVersion(lay, rows)) ==> exported == WithCurrentVersion(lay, rows)
  {
    exported := map[];
    var store;
    ok, store := Import(lay, rows);
    if !ok { return; }
    ImportedOpens(lay, rows);
    VersionOfImported(lay, rows);
    var exports;
    exports, exported := Export(store);
    if TextKeys(WithCurrentVersion(lay, rows)) { ScanAll(WithCurrentVersion(lay, rows)); }
  }

  lemma RawKeepsTags(lay: Layout, db: Db, key: string, value: Value)
    requires Lawful(lay) && OwnTags(lay, db.kv)
    ensures OwnTags(lay, PutRaw(lay, db, key, value).0.kv)
  {
    if Decodes(lay, key, value) { RawTables(lay, db, key, value); }
  }

  /** An imported database answers every further operation as the JSON store it came from. */
  lemma ImportedAnswersAlike(lay: Layout, rows: Flat, db: Db, run: Run)
    requires Lawful(lay) && WellFormed(lay, rows) && AllRegular(run)
    requires Holds(lay, db, FreshRows(lay) + rows)
    ensures JsonResults(lay, rows, run) == SqlResults(lay, db, run)
  {
    BackendsIndistinguishable(lay, rows, db, run);
  }

  /** The same of the stores: imports what a JSON store holds and runs both on the same operations. */
  method ImportThenRun(json: FileStore, ops: seq<Op>) returns (answers: seq<Seen>, others: seq<Seen>)
    requires json.Valid() && WellFormed(json.lay, json.data) && "" !in json.data
    requires forall op | op in ops :: Regular(op)
    modifies json
    ensures json.Valid() && |answers| == |others| == |ops|
    ensures forall i | 0 <= i < |ops| :: ShowSame(answers[i], others[i])
  {
    var ok, sqlite := Import(json.lay, json.data);
    answers, others := RunBoth(json, sqlite, ops);
  }
}

/**
 * The migrations of the SQLite store: tagging rows with their collections and filling the tables from them
 * (internal/store/sqlite.go).
 */
module Migrations {
  import opened Options
  import opened Ordering
  import opened StoreKeys
  import opened StatsBuckets
  import opened StorePayloads
  import opened StoreSpec
  import opened Stores
  import opened Upserts

  const SCHEMA_VERSION := 7

  /** A payload without its own name takes it from the key. */
  function NamedClient(c: Client, k: string): Client {
    if c.key == "" then c.(key := k) else c
  }

  function NamedSession(s: Session, t: string): Session {
    if s.token == "" then s.(token := t) else s
  }

  /** The payload carries the name that its key gives it. */
  predicate NamesMatch(lay: Layout, key: string, value: Value) {
    match lay.kind(key)
    case ClientKind => value.ClientValue? && value.client.key == lay.clientOf(key)
    case SessionKind => value.SessionValue? && value.session.token == lay.sessionOf(key)
    case StatsKind => lay.statsOf(key).Some? ==> value.StatsValue? && value.row.bucket == lay.statsOf(key).value.second
    case _ => true
  }

  // ----- what the backfill does

  function Retagged(lay: Layout, key: string, row: Tagged): Tagged {
    if row.collection == "unknown" || row.collection == "" then row.(collection := lay.collection(key)) else row
  }

  function FixCollections(lay: Layout, kv: map<string, Tagged>): map<string, Tagged> {
    map key | key in kv :: Retagged(lay, key, kv[key])
  }

  function PendingClients(lay: Layout, rows: Flat): Pending<string, Client> {
    map key | key in rows && lay.kind(key) == ClientKind && rows[key].ClientValue? ::
      var c := NamedClient(rows[key].client, lay.clientOf(key)); (c.key, c)
  }

  function PendingSessions(lay: Layout, rows: Flat): Pending<string, Session> {
    map key | key in rows && lay.kind(key) == SessionKind && rows[key].SessionValue? ::
      var s := NamedSession(rows[key].session, lay.sessionOf(key)); (s.token, s)
  }

  function PendingStats(lay: Layout, rows: Flat): Pending<Pair, Counters> {
    map key | key in rows && lay.statsOf(key).Some? && rows[key].StatsValue? ::
      (lay.statsOf(key).value, rows[key].row.counters)
  }

  function ListEntries(lay: Layout, rows: Flat): set<Pair> {
    set key | key in rows && lay.listOf(key).Some? :: lay.listOf(key).value
  }

  /** Each table with the decoded rows of its collection written over it. */
  ghost predicate TablesFilled(lay: Layout, rows: Flat, before: Db, after: Db) {
    && WrittenOver(before.clients, PendingClients(lay, rows), after.clients)
    && WrittenOver(before.sessions, PendingSessions(lay, rows), after.sessions)
    && after.lists == before.lists + ListEntries(lay, rows)
    && WrittenOver(before.stats, PendingStats(lay, rows), after.stats)
  }

  /** What ensureSQLiteSchema may leave. */
  ghost predicate Backfilled(lay: Layout, before: Db, after: Db) {
    after.kv == FixCollections(lay, before.kv) && TablesFilled(lay, Rows(before), before, after)
  }

  /** No two client rows and no two session rows share a name and differ. */
  ghost predicate Settled(lay: Layout, rows: Flat) {
    Agreeing(PendingClients(lay, rows)) && Agreeing(PendingSessions(lay, rows))
  }

  /** One way of filling the tables, the only one when the rows are settled. */
  ghost function Filled(lay: Layout, rows: Flat, db: Db): Db {
    Db(db.kv, Overwritten(db.clients, PendingClients(lay, rows)), Overwritten(db.sessions, PendingSessions(lay, rows)),
       db.lists + ListEntries(lay, rows), Overwritten(db.stats, PendingStats(lay, rows)))
  }

  ghost function Ensured(lay: Layout, db: Db): Db {
    Filled(lay, Rows(db), db).(kv := FixCollections(lay, db.kv))
  }

  /** Different keys have different slots. */
  lemma SlotsAgree(lay: Layout, rows: Flat)
    requires Lawful(lay)
    ensures Agreeing(PendingStats(lay, rows))
  {
    var pending := PendingStats(lay, rows);
    forall a, b | a in pending && b in pending && pending[a].0 == pending[b].0 ensures pending[a] == pending[b] {
      assert KeyLaw(lay, a) && KeyLaw(lay, b);
    }
  }

  lemma FilledIsFilled(lay: Layout, rows: Flat, db: Db)
    ensures TablesFilled(lay, rows, db, Filled(lay, rows, db))
  {
    OverwrittenIsWritten(db.clients, PendingClients(lay, rows));
    OverwrittenIsWritten(db.sessions, PendingSessions(lay, rows));
    OverwrittenIsWritten(db.stats, PendingStats(lay, rows));
  }

  lemma FilledOneWay(lay: Layout, rows: Flat, before: Db, after: Db)
    requires Lawful(lay) && Settled(lay, rows) && TablesFilled(lay, rows, before, after)
    ensures after == Filled(lay, rows, before).(kv := after.kv)
  {
    SlotsAgree(lay, rows);
    WrittenOneWay(before.clients, PendingClients(lay, rows), after.clients);
    WrittenOneWay(before.sessions, PendingSessions(lay, rows), after.sessions);
    WrittenOneWay(before.stats, PendingStats(lay, rows), after.stats);
  }

  /** On settled rows `Ensured` is what the backfill leaves. */
  lemma BackfilledIsEnsured(lay: Layout, before: Db, after: Db)
    requires Lawful(lay) && Backfilled(lay, before, after) && Settled(lay, Rows(before))
    ensures after == Ensured(lay, before)
  {
    FilledOneWay(lay, Rows(before), before, after);
  }

  lemma FillAgain(lay: Layout, rows: Flat, db: Db)
    ensures Filled(lay, rows, Filled(lay, rows, db)) == Filled(lay, rows, db)
  {
    OverwrittenTwice(db.clients, PendingClients(lay, rows));
    OverwrittenTwice(db.sessions, PendingSessions(lay, rows));
    OverwrittenTwice(db.stats, PendingStats(lay, rows));
  }

  // ----- when the backfill restores the mirror

  predicate HasClientRow(lay: Layout, rows: Flat, k: string) { lay.clientKey(k) in rows }
  predicate HasSessionRow(lay: Layout, rows: Flat, t: string) { lay.sessionKey(t) in rows }
  predicate HasListRow(lay: Layout, rows: Flat, p: Pair) { Separable(p) && lay.listKey(p) in rows }
  predicate HasStatsRow(lay: Layout, rows: Flat, p: Pair) { Separable(p) && lay.statsKey(p) in rows }

  /** No table row is left without its kv row. */
  ghost predicate NoneStale(lay: Layout, rows: Flat, db: Db) {
    && ClientsBacked(lay, rows, db.clients) && SessionsBacked(lay, rows, db.sessions)
    && ListsBacked(lay, rows, db.lists) && StatsBacked(lay, rows, db.stats)
  }

  ghost predicate ClientsBacked(lay: Layout, rows: Flat, table: map<string, Client>) {
    forall k | k in table :: HasClientRow(lay, rows, k)
  }

  ghost predicate SessionsBacked(lay: Layout, rows: Flat, table: map<string, Session>) {
    forall t | t in table :: HasSessionRow(lay, rows, t)
  }

  ghost predicate ListsBacked(lay: Layout, rows: Flat, table: set<Pair>) {
    forall p | p in table :: HasListRow(lay, rows, p)
  }

  ghost predicate StatsBacked(lay: Layout, rows: Flat, table: map<Pair, Counters>) {
    forall p | p in table :: HasStatsRow(lay, rows, p)
  }

  /** Every payload of a kind carries its key's name. */
  ghost predicate KindNamed(lay: Layout, rows: Flat, kind: Kind) {
    forall key | key in rows && lay.kind(key) == kind :: NamesMatch(lay, key, rows[key])
  }

  ghost predicate AllNamed(lay: Layout, rows: Flat) {
    forall key | key in rows :: NamesMatch(lay, key, rows[key])
  }

  ghost predicate ClientsMirror(lay: Layout, rows: Flat, clients: map<string, Client>) {
    forall k {:trigger ClientAt(lay, rows, clients, k)} :: ClientAt(lay, rows, clients, k)
  }

  lemma ClientsMirrorIf(lay: Layout, rows: Flat, table: map<string, Client>, filled: map<string, Client>)
    requires Lawful(lay) && WrittenOver(table, PendingClients(lay, rows), filled)
    requires ClientsBacked(lay, rows, table) && KindNamed(lay, rows, ClientKind)
    ensures ClientsMirror(lay, rows, filled)
  {
    var pending := PendingClients(lay, rows);
    forall k ensures ClientAt(lay, rows, filled, k) {
      var key := lay.clientKey(k);
      assert NameLaw(lay, k) && (k in table ==> HasClientRow(lay, rows, k));
      if key in rows { assert NamesMatch(lay, key, rows[key]); assert pending[key].0 == k; }
      if k in Names(pending) {
        var j :| j in pending && pending[j] == (k, filled[k]);
        assert NamesMatch(lay, j, rows[j]) && KeyLaw(lay, j);
      }
    }
  }

  lemma ClientsMirrorOnlyIf(lay: Layout, rows: Flat, table: map<string, Client>, filled: map<string, Client>)
    requires Lawful(lay) && WrittenOver(table, PendingClients(lay, rows), filled)
    requires (forall k | k in table :: table[k].key == k) && ClientsMirror(lay, rows, filled)
    ensures ClientsBacked(lay, rows, table) && KindNamed(lay, rows, ClientKind)
  {
    var pending := PendingClients(lay, rows);
    forall k | k in table ensures HasClientRow(lay, rows, k) { assert ClientAt(lay, rows, filled, k); }
    forall key | key in rows && lay.kind(key) == ClientKind ensures NamesMatch(lay, key, rows[key]) {
      var k := lay.clientOf(key);
      assert KeyLaw(lay, key) && ClientAt(lay, rows, filled, k);
      if k in Names(pending) {
        var j :| j in pending && pending[j] == (k, filled[k]);
      }
    }
  }

  ghost predicate SessionsMirror(lay: Layout, rows: Flat, sessions: map<string, Session>) {
    forall t {:trigger SessionAt(lay, rows, sessions, t)} :: SessionAt(lay, rows, sessions, t)
  }

  lemma SessionsMirrorIf(lay: Layout, rows: Flat, table: map<string, Session>, filled: map<string, Session>)
    requires Lawful(lay) && WrittenOver(table, PendingSessions(lay, rows), filled)
    requires SessionsBacked(lay, rows, table) && KindNamed(lay, rows, SessionKind)
    ensures SessionsMirror(lay, rows, filled)
  {
    var pending := PendingSessions(lay, rows);
    forall t ensures SessionAt(lay, rows, filled, t) {
      var key := lay.sessionKey(t);
      assert NameLaw(lay, t) && (t in table ==> HasSessionRow(lay, rows, t));
      if key in rows { assert NamesMatch(lay, key, rows[key]); assert pending[key].0 == t; }
      if t in Names(pending) {
        var j :| j in pending && pending[j] == (t, filled[t]);
        assert NamesMatch(lay, j, rows[j]) && KeyLaw(lay, j);
      }
    }
  }

  lemma SessionsMirrorOnlyIf(lay: Layout, rows: Flat, table: map<string, Session>, filled: map<string, Session>)
    requires Lawful(lay) && WrittenOver(table, PendingSessions(lay, rows), filled)
    requires (forall t | t in table :: table[t].token == t) && SessionsMirror(lay, rows, filled)
    ensures SessionsBacked(lay, rows, table) && KindNamed(lay, rows, SessionKind)
  {
    var pending := PendingSessions(lay, rows);
    forall t | t in table ensures HasSessionRow(lay, rows, t) { assert SessionAt(lay, rows, filled, t); }
    forall key | key in rows && lay.kind(key) == SessionKind ensures NamesMatch(lay, key, rows[key]) {
      var t := lay.sessionOf(key);
      assert KeyLaw(lay, key) && SessionAt(lay, rows, filled, t);
      if t in Names(pending) {
        var j :| j in pending && pending[j] == (t, filled[t]);
      }
    }
  }

  /** The entries of the rows are the separable pairs whose key is there. */
  lemma EntryIffRow(lay: Layout, rows: Flat, p: Pair)
    requires Lawful(lay)
    ensures p in ListEntries(lay, rows) <==> HasListRow(lay, rows, p)
  {
    var key := lay.listKey(p);
    assert PairLaw(lay, p);
    if p in ListEntries(lay, rows) {
      var key' :| key' in rows && lay.listOf(key').Some? && lay.listOf(key').value == p;
      assert KeyLaw(lay, key');
    }
    if HasListRow(lay, rows, p) { assert lay.listOf(key) == Some(p); }
  }

  ghost predicate ListsMirror(lay: Layout, rows: Flat, lists: set<Pair>) {
    forall p {:trigger DomainAt(lay, rows, lists, p)} :: DomainAt(lay, rows, lists, p)
  }

  lemma ListsMirrorIff(lay: Layout, rows: Flat, table: set<Pair>)
    requires Lawful(lay)
    ensures ListsMirror(lay, rows, table + ListEntries(lay, rows)) <==> ListsBacked(lay, rows, table)
  {
    var filled := table + ListEntries(lay, rows);
    forall p ensures DomainAt(lay, rows, filled, p) <==> (p in table ==> HasListRow(lay, rows, p)) {
      EntryIffRow(lay, rows, p);
    }
  }

  ghost predicate StatsMirror(lay: Layout, rows: Flat, stats: map<Pair, Counters>) {
    forall p {:trigger CountersAt(lay, rows, stats, p)} :: CountersAt(lay, rows, stats, p)
  }

  /** The row of a slot, if there is one, is the only one pending for it. */
  lemma SlotPending(lay: Layout, rows: Flat, p: Pair)
    requires Lawful(lay) && KindDecodes(lay, rows)
    ensures var pending, key := PendingStats(lay, rows), lay.statsKey(p);
      && (p in Names(pending) <==> HasStatsRow(lay, rows, p))
      && (forall j | j in pending && pending[j].0 == p :: j == key)
      && (HasStatsRow(lay, rows, p) ==> key in pending && pending[key] == (p, rows[key].row.counters))
  {
    var pending, key := PendingStats(lay, rows), lay.statsKey(p);
    assert PairLaw(lay, p);
    forall j | j in pending && pending[j].0 == p ensures j == key && Separable(p) { assert KeyLaw(lay, j); }
    if HasStatsRow(lay, rows, p) { assert pending[key].0 == p; }
  }

  /** Every statistics row whose key comes apart decodes. */
  ghost predicate KindDecodes(lay: Layout, rows: Flat) {
    forall key | key in rows && lay.statsOf(key).Some? :: rows[key].StatsValue?
  }

  predicate SlotNamed(lay: Layout, rows: Flat, p: Pair) {
    var key := lay.statsKey(p);
    key in rows && rows[key].StatsValue? && rows[key].row.bucket == p.second
  }

  lemma StatsMirrorAt(lay: Layout, rows: Flat, table: map<Pair, Counters>, filled: map<Pair, Counters>, p: Pair)
    requires Lawful(lay) && KindDecodes(lay, rows) && WrittenOver(table, PendingStats(lay, rows), filled)
    ensures CountersAt(lay, rows, filled, p) <==>
      && (p in table ==> HasStatsRow(lay, rows, p))
      && (HasStatsRow(lay, rows, p) ==> SlotNamed(lay, rows, p))
  {
    SlotPending(lay, rows, p);
  }

  lemma StatsMirrorIff(lay: Layout, rows: Flat, table: map<Pair, Counters>, filled: map<Pair, Counters>)
    requires Lawful(lay) && KindDecodes(lay, rows) && WrittenOver(table, PendingStats(lay, rows), filled)
    ensures StatsMirror(lay, rows, filled) <==>
      StatsBacked(lay, rows, table) && KindNamed(lay, rows, StatsKind)
  {
    if StatsMirror(lay, rows, filled) {
      forall p | p in table ensures HasStatsRow(lay, rows, p) {
        assert CountersAt(lay, rows, filled, p);
        StatsMirrorAt(lay, rows, table, filled, p);
      }
      forall key | key in rows && lay.kind(key) == StatsKind ensures NamesMatch(lay, key, rows[key]) {
        if lay.statsOf(key).Some? {
          var p := lay.statsOf(key).value;
          assert KeyLaw(lay, key) && CountersAt(lay, rows, filled, p);
          StatsMirrorAt(lay, rows, table, filled, p);
        }
      }
    }
    if StatsBacked(lay, rows, table) && KindNamed(lay, rows, StatsKind) {
      forall p ensures CountersAt(lay, rows, filled, p) {
        StatsMirrorAt(lay, rows, table, filled, p);
        assert PairLaw(lay, p);
        if lay.statsKey(p) in rows { assert NamesMatch(lay, lay.statsKey(p), rows[lay.statsKey(p)]); }
      }
    }
  }

  /**
   * The tables, filled from rows that decode, mirror them exactly when no table row was stale, which is never
   * deleted, and every payload carries its key's name.
   */
  lemma EnsureMirrorsIff(lay: Layout, rows: Flat, before: Db, after: Db)
    requires Lawful(lay) && KindDecodes(lay, rows) && Keyed(before) && TablesFilled(lay, rows, before, after)
    ensures Mirrors(lay, rows, after) <==> NoneStale(lay, rows, before) && AllNamed(lay, rows)
  {
    ClientsMirrorIff(lay, rows, before, after);
    SessionsMirrorIff(lay, rows, before, after);
    ListsMirrorIff(lay, rows, before.lists);
    StatsMirrorIff(lay, rows, before.stats, after.stats);
  }

  lemma ClientsMirrorIff(lay: Layout, rows: Flat, before: Db, after: Db)
    requires Lawful(lay) && Keyed(before) && WrittenOver(before.clients, PendingClients(lay, rows), after.clients)
    ensures ClientsMirror(lay, rows, after.clients)
       <==> ClientsBacked(lay, rows, before.clients) && KindNamed(lay, rows, ClientKind)
  {
    if ClientsMirror(lay, rows, after.clients) { ClientsMirrorOnlyIf(lay, rows, before.clients, after.clients); }
    if ClientsBacked(lay, rows, before.clients) && KindNamed(lay, rows, ClientKind) {
      ClientsMirrorIf(lay, rows, before.clients, after.clients);
    }
  }

  lemma SessionsMirrorIff(lay: Layout, rows: Flat, before: Db, after: Db)
    requires Lawful(lay) && Keyed(before) && WrittenOver(before.sessions, PendingSessions(lay, rows), after.sessions)
    ensures SessionsMirror(lay, rows, after.sessions)
       <==> SessionsBacked(lay, rows, before.sessions) && KindNamed(lay, rows, SessionKind)
  {
    if SessionsMirror(lay, rows, after.sessions) { SessionsMirrorOnlyIf(lay, rows, before.sessions, after.sessions); }
    if SessionsBacked(lay, rows, before.sessions) && KindNamed(lay, rows, SessionKind) {
      SessionsMirrorIf(lay, rows, before.sessions, after.sessions);
    }
  }

  // ----- when the backfill changes nothing

  /** No row is tagged unknown or empty unless that is its collection. */
  predicate TagsRight(lay: Layout, kv: map<string, Tagged>) {
    forall key | key in kv :: kv[key].collection in {"unknown", ""} ==> kv[key].collection == lay.collection(key)
  }

  lemma MirroredTablesStay(lay: Layout, rows: Flat, db: Db, after: Db)
    requires Lawful(lay) && Keyed(db) && Mirrors(lay, rows, db) && TablesFilled(lay, rows, db, after)
    ensures after.clients == db.clients && after.sessions == db.sessions
    ensures after.lists == db.lists && after.stats == db.stats
  {
    forall key | key in PendingClients(lay, rows)
      ensures InTable(PendingClients(lay, rows), db.clients, key)
    {
      assert KeyLaw(lay, key) && ClientAt(lay, rows, db.clients, lay.clientOf(key));
    }
    WrittenStays(db.clients, PendingClients(lay, rows), after.clients);
    forall key | key in PendingSessions(lay, rows)
      ensures InTable(PendingSessions(lay, rows), db.sessions, key)
    {
      assert KeyLaw(lay, key) && SessionAt(lay, rows, db.sessions, lay.sessionOf(key));
    }
    WrittenStays(db.sessions, PendingSessions(lay, rows), after.sessions);
    forall key | key in PendingStats(lay, rows) ensures InTable(PendingStats(lay, rows), db.stats, key) {
      assert KeyLaw(lay, key) && CountersAt(lay, rows, db.stats, lay.statsOf(key).value);
    }
    WrittenStays(db.stats, PendingStats(lay, rows), after.stats);
    forall p | p in ListEntries(lay, rows) ensures p in db.lists {
      EntryIffRow(lay, rows, p);
      assert DomainAt(lay, rows, db.lists, p);
    }
  }

  /** On a database in order the backfill changes nothing. */
  lemma EnsureIsIdentity(lay: Layout, db: Db, after: Db)
    requires Lawful(lay) && Keyed(db) && Mirror(lay, db) && TagsRight(lay, db.kv) && Backfilled(lay, db, after)
    ensures after == db
  {
    MirroredTablesStay(lay, Rows(db), db, after);
    assert FixCollections(lay, db.kv) == db.kv;
  }

  lemma FixTwice(lay: Layout, kv: map<string, Tagged>)
    ensures FixCollections(lay, FixCollections(lay, kv)) == FixCollections(lay, kv)
  {
  }

  lemma RowsFixed(lay: Layout, before: Db, after: Db)
    requires after.kv == FixCollections(lay, before.kv)
    ensures Rows(after) == Rows(before)
  {
  }

  /** Filling the tables twice is one way of filling them once, and on settled rows it changes nothing more. */
  lemma FilledTwice(lay: Layout, rows: Flat, before: Db, once: Db, twice: Db)
    requires Lawful(lay) && TablesFilled(lay, rows, before, once) && TablesFilled(lay, rows, once, twice)
    ensures TablesFilled(lay, rows, before, twice)
    ensures Settled(lay, rows) ==> twice.(kv := once.kv) == once
  {
    SlotsAgree(lay, rows);
    WrittenTwice(before.clients, PendingClients(lay, rows), once.clients, twice.clients);
    WrittenTwice(before.sessions, PendingSessions(lay, rows), once.sessions, twice.sessions);
    WrittenTwice(before.stats, PendingStats(lay, rows), once.stats, twice.stats);
  }

  /** Rows that are not settled can fill the tables one way and then another. */
  lemma FilledTwoWays(lay: Layout, rows: Flat, db: Db) returns (once: Db, twice: Db)
    requires !Settled(lay, rows)
    ensures TablesFilled(lay, rows, db, once) && TablesFilled(lay, rows, once, twice)
    ensures once.clients != twice.clients || once.sessions != twice.sessions
  {
    var clients, sessions, filled := PendingClients(lay, rows), PendingSessions(lay, rows), Filled(lay, rows, db);
    FillAgain(lay, rows, db);
    FilledIsFilled(lay, rows, db);
    FilledIsFilled(lay, rows, filled);
    if !Agreeing(clients) {
      var a, b :| a in clients && b in clients && clients[a].0 == clients[b].0 && clients[a] != clients[b];
      var one, other := WrittenTwoWays(db.clients, clients, a, b);
      once, twice := filled.(clients := one), filled.(clients := other);
    } else {
      var a, b :| a in sessions && b in sessions && sessions[a].0 == sessions[b].0 && sessions[a] != sessions[b];
      var one, other := WrittenTwoWays(db.sessions, sessions, a, b);
      once, twice := filled.(sessions := one), filled.(sessions := other);
    }
  }

  lemma BackfillTwice(lay: Layout, db: Db, once: Db, twice: Db)
    requires Lawful(lay) && Settled(lay, Rows(db)) && Backfilled(lay, db, once) && Backfilled(lay, once, twice)
    ensures twice == once
  {
    RowsFixed(lay, db, once);
    FixTwice(lay, db.kv);
    FilledTwice(lay, Rows(db), db, once, twice);
  }

  /**
   * Whatever order rows are written in, a second backfill changes nothing: exactly when no two client rows and no two
   * session rows share a name and differ. Stale table rows do not matter.
   */
  lemma BackfillSettlesIff(lay: Layout, db: Db)
    requires Lawful(lay)
    ensures (forall once, twice | Backfilled(lay, db, once) && Backfilled(lay, once, twice) :: twice == once)
       <==> Settled(lay, Rows(db))
  {
    if Settled(lay, Rows(db)) {
      forall once, twice | Backfilled(lay, db, once) && Backfilled(lay, once, twice) ensures twice == once {
        BackfillTwice(lay, db, once, twice);
      }
    } else {
      var once, twice := BackfillTwoWays(lay, db);
    }
  }

  lemma BackfillTwoWays(lay: Layout, db: Db) returns (once: Db, twice: Db)
    requires !Settled(lay, Rows(db))
    ensures Backfilled(lay, db, once) && Backfilled(lay, once, twice) && once != twice
  {
    var one, other := FilledTwoWays(lay, Rows(db), db);
    var kv := FixCollections(lay, db.kv);
    once, twice := one.(kv := kv), other.(kv := kv);
    RowsFixed(lay, db, once);
    FixTwice(lay, db.kv);
  }

  /** The same of the one way `Ensured` stands for. */
  lemma EnsureIdempotent(lay: Layout, db: Db)
    ensures Ensured(lay, Ensured(lay, db)) == Ensured(lay, db)
  {
    RowsFixed(lay, db, Ensured(lay, db));
    FillAgain(lay, Rows(db), db);
    FixTwice(lay, db.kv);
  }

  // ----- versions

  function VersionOf(lay: Layout, rows: Flat): int {
    if lay.versionKey in rows && rows[lay.versionKey].VersionValue? then rows[lay.versionKey].version else 0
  }

  function PutVersion(lay: Layout, db: Db, v: int): Db {
    PutKv(lay, db, lay.versionKey, VersionValue(v))
  }

  /** What migration `v` does to a SQLite store with settled rows. */
  ghost function Migration(lay: Layout, db: Db, v: int): Db {
    if v <= 1 then db
    else if v == 2 then db.(kv := FixCollections(lay, db.kv))
    else Ensured(lay, db)
  }

  /** The migrations above `current`, from `v` to `last`, each followed by its version stamp. */
  function MigrateFrom<D>(migration: (D, int) -> D, stamp: (D, int) -> D, db: D, current: int, v: int, last: int): D
    decreases last + 1 - v
  {
    if v > last then db
    else if v <= current then MigrateFrom(migration, stamp, db, current, v + 1, last)
    else MigrateFrom(migration, stamp, stamp(migration(db, v), v), current, v + 1, last)
  }

  /** runMigrations, on settled rows. */
  ghost function Reopened(lay: Layout, db: Db): Db {
    var current := VersionOf(lay, Rows(db));
    if current >= SCHEMA_VERSION then Ensured(lay, db)
    else MigrateFrom(Steps(lay), Stamps(lay), db, current, 1, SCHEMA_VERSION)
  }

  /** A migration leads towards `ensure`, and a stamp commutes with it and hides earlier stamps. */
  predicate LeadLaw<D(==)>(migration: (D, int) -> D, stamp: (D, int) -> D, ensure: D -> D, d: D, v: int, w: int) {
    && (1 <= v ==> ensure(migration(d, v)) == ensure(d))
    && (3 <= v ==> migration(d, v) == ensure(d))
    && ensure(stamp(d, v)) == stamp(ensure(d), v)
    && stamp(stamp(d, v), w) == stamp(d, w)
  }

  ghost predicate LeadTo<D(!new)>(migration: (D, int) -> D, stamp: (D, int) -> D, ensure: D -> D) {
    forall d, v, w {:trigger LeadLaw(migration, stamp, ensure, d, v, w)} :: LeadLaw(migration, stamp, ensure, d, v, w)
  }

  /** Whatever version it starts from, the chain of migrations is one backfill and one stamp. */
  lemma {:induction false} MigrationsEnd<D(!new)>(migration: (D, int) -> D, stamp: (D, int) -> D, ensure: D -> D,
                                                  db: D, current: int, v: int, last: int)
    requires LeadTo(migration, stamp, ensure) && current < last && 1 <= v <= last && 3 <= last
    ensures MigrateFrom(migration, stamp, db, current, v, last) == stamp(ensure(db), last)
    decreases last - v
  {
    if v <= current {
      MigrationsEnd(migration, stamp, ensure, db, current, v + 1, last);
    } else {
      var done := migration(db, v);
      assert LeadLaw(migration, stamp, ensure, db, v, v) && LeadLaw(migration, stamp, ensure, done, v, last);
      assert LeadLaw(migration, stamp, ensure, ensure(db), v, last);
      if v < last { MigrationsEnd(migration, stamp, ensure, stamp(done, v), current, v + 1, last); }
    }
  }

  /** Rows of no table leave what is pending as it is. */
  lemma SamePending(lay: Layout, rows: Flat, rows': Flat)
    requires Lawful(lay) && OnlyKind(lay, rows, rows', OtherKind)
    ensures PendingClients(lay, rows') == PendingClients(lay, rows)
    ensures PendingSessions(lay, rows') == PendingSessions(lay, rows)
    ensures ListEntries(lay, rows') == ListEntries(lay, rows)
    ensures PendingStats(lay, rows') == PendingStats(lay, rows)
  {
    forall key | lay.kind(key) != OtherKind
      ensures (key in rows <==> key in rows') && (key in rows ==> rows[key] == rows'[key])
    {
      assert SameAlong(lay, rows, rows', OtherKind, key);
    }
    forall key | lay.listOf(key).Some? || lay.statsOf(key).Some? ensures lay.kind(key) != OtherKind {
      assert KeyLaw(lay, key);
    }
  }

  lemma VersionPending(lay: Layout, rows: Flat, value: Value)
    requires Lawful(lay)
    ensures var rows' := rows[lay.versionKey := value];
      && PendingClients(lay, rows') == PendingClients(lay, rows)
      && PendingSessions(lay, rows') == PendingSessions(lay, rows)
      && ListEntries(lay, rows') == ListEntries(lay, rows)
      && PendingStats(lay, rows') == PendingStats(lay, rows)
  {
    SamePending(lay, rows, rows[lay.versionKey := value]);
  }

  /** The version row and the backfill do not touch each other. */
  lemma VersionCommutes(lay: Layout, db: Db, v: int)
    requires Lawful(lay)
    ensures Ensured(lay, PutVersion(lay, db, v)) == PutVersion(lay, Ensured(lay, db), v)
  {
    RowsPut(lay, db, lay.versionKey, VersionValue(v));
    VersionPending(lay, Rows(db), VersionValue(v));
    FixThenTag(lay, db.kv, lay.versionKey, VersionValue(v));
  }

  lemma FixThenTag(lay: Layout, kv: map<string, Tagged>, key: string, value: Value)
    ensures var row := Tagged(lay.collection(key), value);
      FixCollections(lay, kv[key := row]) == FixCollections(lay, kv)[key := row]
  {
  }

  lemma EnsureAfterMigration(lay: Layout, db: Db, v: int)
    ensures Ensured(lay, Migration(lay, db, v)) == Ensured(lay, db)
  {
    RowsFixed(lay, db, db.(kv := FixCollections(lay, db.kv)));
    FixTwice(lay, db.kv);
    EnsureIdempotent(lay, db);
  }

  lemma LastVersionStands(lay: Layout, db: Db, v: int, w: int)
    ensures PutVersion(lay, PutVersion(lay, db, v), w) == PutVersion(lay, db, w)
  {
  }

  /** The steps of runMigrations as functions. */
  ghost function Steps(lay: Layout): (Db, int) -> Db { (d, v) => Migration(lay, d, v) }
  function Stamps(lay: Layout): (Db, int) -> Db { (d, v) => PutVersion(lay, d, v) }
  ghost function Backfill(lay: Layout): Db -> Db { d => Ensured(lay, d) }

  lemma MigrationsLeadToEnsured(lay: Layout)
    requires Lawful(lay)
    ensures LeadTo(Steps(lay), Stamps(lay), Backfill(lay))
  {
    var migration, stamp, ensure := Steps(lay), Stamps(lay), Backfill(lay);
    forall d, v, w ensures LeadLaw(migration, stamp, ensure, d, v, w) {
      EnsureAfterMigration(lay, d, v);
      VersionCommutes(lay, d, v);
      LastVersionStands(lay, d, v, w);
    }
  }

  /** The migrations of any version backfill every table and, if it was older, set the current version. */
  lemma OpeningBackfills(lay: Layout, db: Db)
    requires Lawful(lay)
    ensures Reopened(lay, db)
         == if VersionOf(lay, Rows(db)) >= SCHEMA_VERSION then Ensured(lay, db)
           else PutVersion(lay, Ensured(lay, db), SCHEMA_VERSION)
  {
    var current := VersionOf(lay, Rows(db));
    if current < SCHEMA_VERSION {
      MigrationsLeadToEnsured(lay);
      MigrationsEnd(Steps(lay), Stamps(lay), Backfill(lay), db, current, 1, SCHEMA_VERSION);
    }
  }

  /** What runMigrations may leave. */
  ghost predicate OpenedAs(lay: Layout, before: Db, after: Db) {
    after.kv == OpenedKv(lay, before) && TablesFilled(lay, Rows(before), before, after)
  }

  function OpenedKv(lay: Layout, db: Db): map<string, Tagged> {
    var kv := FixCollections(lay, db.kv);
    if VersionOf(lay, Rows(db)) >= SCHEMA_VERSION then kv else StampedKv(lay, kv, SCHEMA_VERSION)
  }

  function StampedKv(lay: Layout, kv: map<string, Tagged>, v: int): map<string, Tagged> {
    kv[lay.versionKey := Tagged(lay.collection(lay.versionKey), VersionValue(v))]
  }

  /** The rows with a schema version that is not behind. */
  function WithCurrentVersion(lay: Layout, rows: Flat): Flat {
    if VersionOf(lay, rows) >= SCHEMA_VERSION then rows else rows[lay.versionKey := VersionValue(SCHEMA_VERSION)]
  }

  lemma OpenedRows(lay: Layout, before: Db, after: Db)
    requires after.kv == OpenedKv(lay, before)
    ensures Rows(after) == WithCurrentVersion(lay, Rows(before))
  {
    RowsFixed(lay, before, before.(kv := FixCollections(lay, before.kv)));
  }

  /** On settled rows `Reopened` is what opening leaves. */
  lemma OpenedIsReopened(lay: Layout, before: Db, after: Db)
    requires Lawful(lay) && OpenedAs(lay, before, after) && Settled(lay, Rows(before))
    ensures after == Reopened(lay, before)
  {
    OpeningBackfills(lay, before);
    FilledOneWay(lay, Rows(before), before, after);
  }

  lemma OpenedPending(lay: Layout, rows: Flat)
    requires Lawful(lay)
    ensures var rows' := WithCurrentVersion(lay, rows);
      && PendingClients(lay, rows') == PendingClients(lay, rows)
      && PendingSessions(lay, rows') == PendingSessions(lay, rows)
      && ListEntries(lay, rows') == ListEntries(lay, rows)
      && PendingStats(lay, rows') == PendingStats(lay, rows)
  {
    VersionPending(lay, rows, VersionValue(SCHEMA_VERSION));
  }

  lemma OpenedKvStays(lay: Layout, before: Db, after: Db)
    requires after.kv == OpenedKv(lay, before)
    ensures OpenedKv(lay, after) == after.kv
  {
    OpenedRows(lay, before, after);
    FixTwice(lay, before.kv);
    FixThenTag(lay, FixCollections(lay, before.kv), lay.versionKey, VersionValue(SCHEMA_VERSION));
  }

  lemma OpenTwice(lay: Layout, db: Db, once: Db, twice: Db)
    requires Lawful(lay) && Settled(lay, Rows(db)) && OpenedAs(lay, db, once) && OpenedAs(lay, once, twice)
    ensures twice == once
  {
    OpenedRows(lay, db, once);
    OpenedPending(lay, Rows(db));
    OpenedKvStays(lay, db, once);
    FilledTwice(lay, Rows(db), db, once, twice);
  }

  /**
   * Opening a database of any version and opening it again changes nothing more, whatever order rows are written in:
   * exactly when no two client rows and no two session rows share a name and differ.
   */
  lemma ReopenSettlesIff(lay: Layout, db: Db)
    requires Lawful(lay)
    ensures (forall once, twice | OpenedAs(lay, db, once) && OpenedAs(lay, once, twice) :: twice == once)
       <==> Settled(lay, Rows(db))
  {
    if Settled(lay, Rows(db)) {
      forall once, twice | OpenedAs(lay, db, once) && OpenedAs(lay, once, twice) ensures twice == once {
        OpenTwice(lay, db, once, twice);
      }
    } else {
      var once, twice := OpenTwoWays(lay, db);
    }
  }

  lemma OpenTwoWays(lay: Layout, db: Db) returns (once: Db, twice: Db)
    requires Lawful(lay) && !Settled(lay, Rows(db))
    ensures OpenedAs(lay, db, once) && OpenedAs(lay, once, twice) && once != twice
  {
    var one, other := FilledTwoWays(lay, Rows(db), db);
    once, twice := one.(kv := OpenedKv(lay, db)), other.(kv := OpenedKv(lay, db));
    OpenedRows(lay, db, once);
    OpenedPending(lay, Rows(db));
    OpenedKvStays(lay, db, once);
  }

  // ----- what opens

  /** A row that the backfill does not stumble over: it passes over paired keys that do not come apart. */
  predicate OpensAt(lay: Layout, key: string, value: Value) {
    && (lay.kind(key) == ClientKind ==> value.ClientValue?)
    && (lay.kind(key) == SessionKind ==> value.SessionValue?)
    && (lay.statsOf(key).Some? ==> value.StatsValue?)
    && (lay.kind(key) == OtherKind ==> lay.decodes(key, value))
  }

  ghost predicate Openable(lay: Layout, rows: Flat) {
    forall key | key in rows :: OpensAt(lay, key, rows[key])
  }

  /** Whatever was done to a JSON store, its rows are settled: each goes under its key's name. */
  lemma TypedSettled(lay: Layout, rows: Flat)
    requires Lawful(lay) && Typed(lay, rows)
    ensures Settled(lay, rows)
  {
    var clients, sessions := PendingClients(lay, rows), PendingSessions(lay, rows);
    forall a, b | a in clients && b in clients && clients[a].0 == clients[b].0 ensures a == b {
      assert KeyLaw(lay, a) && KeyLaw(lay, b) && TypedAt(lay, rows, a) && TypedAt(lay, rows, b);
    }
    forall a, b | a in sessions && b in sessions && sessions[a].0 == sessions[b].0 ensures a == b {
      assert KeyLaw(lay, a) && KeyLaw(lay, b) && TypedAt(lay, rows, a) && TypedAt(lay, rows, b);
    }
  }

  lemma VersionOpens(lay: Layout, rows: Flat, v: int)
    requires Lawful(lay)
    ensures Openable(lay, rows[lay.versionKey := VersionValue(v)]) <==> Openable(lay, rows - {lay.versionKey})
  {
    var with, without := rows[lay.versionKey := VersionValue(v)], rows - {lay.versionKey};
    assert KeyLaw(lay, lay.versionKey);
    assert forall key | key in without :: key in with && with[key] == without[key];
    assert forall key | key in with && key != lay.versionKey :: key in without && with[key] == without[key];
  }

  lemma VersionRowOpens(lay: Layout, rows: Flat)
    requires Lawful(lay)
    ensures Openable(lay, rows) <==> Openable(lay, rows - {lay.versionKey})
  {
    var without := rows - {lay.versionKey};
    assert KeyLaw(lay, lay.versionKey);
    assert forall key | key in without :: key in rows && rows[key] == without[key];
    assert forall key | key in rows && key != lay.versionKey :: key in without;
  }

  // ----- the code

  /**
   * Decodes every client row, then writes each into the table; a row that does not decode stops it before any
   * write.
   */
  method BackfillClients(lay: Layout, rows: Flat, table: map<string, Client>)
    returns (ok: bool, filled: map<string, Client>)
    ensures ok <==> forall key | key in rows && lay.kind(key) == ClientKind :: rows[key].ClientValue?
    ensures !ok ==> filled == table
    ensures ok ==> WrittenOver(table, PendingClients(lay, rows), filled)
  {
    ok := forall key | key in rows && lay.kind(key) == ClientKind :: rows[key].ClientValue?;
    if !ok { return false, table; }
    filled := UpsertAll(table, PendingClients(lay, rows));
  }

  method BackfillSessions(lay: Layout, rows: Flat, table: map<string, Session>)
    returns (ok: bool, filled: map<string, Session>)
    ensures ok <==> forall key | key in rows && lay.kind(key) == SessionKind :: rows[key].SessionValue?
    ensures !ok ==> filled == table
    ensures ok ==> WrittenOver(table, PendingSessions(lay, rows), filled)
  {
    ok := forall key | key in rows && lay.kind(key) == SessionKind :: rows[key].SessionValue?;
    if !ok { return false, table; }
    filled := UpsertAll(table, PendingSessions(lay, rows));
  }

  /** Keys that do not split are passed over. */
  method BackfillLists(lay: Layout, rows: Flat, table: set<Pair>) returns (filled: set<Pair>)
    ensures filled == table + ListEntries(lay, rows)
  {
    filled := table;
    var rest := rows.Keys;
    while rest != {}
      invariant rest <= rows.Keys
      invariant filled == table + (set key | key in rows && key !in rest && lay.listOf(key).Some? ::
        lay.listOf(key).value)
    {
      var key :| key in rest;
      if lay.listOf(key).Some? { filled := filled + {lay.listOf(key).value}; }
      rest := rest - {key};
    }
  }

  /** The slot has the counters of its row. */
  predicate SlotHolds(lay: Layout, rows: Flat, stats: map<Pair, Counters>, p: Pair) {
    var key := lay.statsKey(p);
    key in rows && rows[key].StatsValue? && p in stats && stats[p] == rows[key].row.counters
  }

  method BackfillStats(lay: Layout, rows: Flat, table: map<Pair, Counters>)
    returns (ok: bool, filled: map<Pair, Counters>)
    requires Lawful(lay)
    ensures ok <==> KindDecodes(lay, rows)
    ensures !ok ==> filled == table
    ensures ok ==> WrittenOver(table, PendingStats(lay, rows), filled)
    ensures ok ==> forall p | HasStatsRow(lay, rows, p) :: SlotHolds(lay, rows, filled, p)
  {
    ok := forall key | key in rows && lay.statsOf(key).Some? :: rows[key].StatsValue?;
    if !ok { return false, table; }
    filled := UpsertAll(table, PendingStats(lay, rows));
    forall p | HasStatsRow(lay, rows, p) ensures SlotHolds(lay, rows, filled, p) {
      SlotPending(lay, rows, p);
    }
  }

  method EnsureCollectionColumn(store: SqliteStore)
    modifies store`kv
    ensures store.kv == FixCollections(store.lay, old(store.kv)) && Rows(store.Now()) == Rows(old(store.Now()))
  {
    var before, lay := store.kv, store.lay;
    var rest := set key | key in before && (before[key].collection == "unknown" || before[key].collection == "");
    while rest != {}
      invariant rest <= before.Keys && store.kv.Keys == before.Keys
      invariant forall key | key in before ::
        store.kv[key] == if key in rest then before[key] else Retagged(lay, key, before[key])
    {
      var key :| key in rest;
      store.kv := store.kv[key := before[key].(collection := lay.collection(key))];
      rest := rest - {key};
    }
  }

  /** Decodes every row of the configuration history. */
  method CheckOthers(lay: Layout, rows: Flat) returns (ok: bool)
    ensures ok <==> forall key | key in rows && lay.kind(key) == OtherKind :: lay.decodes(key, rows[key])
  {
    ok := forall key | key in rows && lay.kind(key) == OtherKind :: lay.decodes(key, rows[key]);
  }

  /**
   * Backfills every table from the kv rows. It succeeds iff every row decodes, keeps the rows, and on settled rows it
   * leaves one database.
   */
  method EnsureSchema(store: SqliteStore) returns (ok: bool)
    requires store.Valid()
    modifies store
    ensures store.Valid() && Rows(store.Now()) == Rows(old(store.Now()))
    ensures ok <==> Openable(store.lay, Rows(old(store.Now())))
    ensures ok ==> Backfilled(store.lay, old(store.Now()), store.Now())
    ensures ok && Settled(store.lay, Rows(old(store.Now()))) ==> store.Now() == Ensured(store.lay, old(store.Now()))
    ensures ok ==> (Mirror(store.lay, store.Now()) <==>
      NoneStale(store.lay, Rows(old(store.Now())), old(store.Now())) && AllNamed(store.lay, Rows(old(store.Now()))))
  {
    var lay, rows := store.lay, Rows(store.Now());
    ghost var before := store.Now();
    EnsureCollectionColumn(store);
    RowsFixed(lay, before, store.Now());
    ok := FillTables(store, rows);
    if ok {
      EnsureMirrorsIff(lay, rows, before, store.Now());
      if Settled(lay, rows) { BackfilledIsEnsured(lay, before, store.Now()); }
    }
  }

  method FillTables(store: SqliteStore, rows: Flat) returns (ok: bool)
    requires store.Valid()
    modifies store`clients, store`sessions, store`lists, store`stats
    ensures store.Valid()
    ensures ok <==> Openable(store.lay, rows)
    ensures ok ==> TablesFilled(store.lay, rows, old(store.Now()), store.Now())
  {
    ok := FillNamed(store, rows);
    if !ok { return; }
    ok := FillPairs(store, rows);
    if !ok { return; }
    ok := CheckOthers(store.lay, rows);
  }

  method FillNamed(store: SqliteStore, rows: Flat) returns (ok: bool)
    requires store.Valid()
    modifies store`clients, store`sessions
    ensures store.Valid()
    ensures ok <==>
      && (forall key | key in rows && store.lay.kind(key) == ClientKind :: rows[key].ClientValue?)
      && (forall key | key in rows && store.lay.kind(key) == SessionKind :: rows[key].SessionValue?)
    ensures ok ==>
      && WrittenOver(old(store.clients), PendingClients(store.lay, rows), store.clients)
      && WrittenOver(old(store.sessions), PendingSessions(store.lay, rows), store.sessions)
  {
    var lay := store.lay;
    var clients, sessions;
    ok, clients := BackfillClients(lay, rows, store.clients);
    if !ok { return; }
    store.clients := clients;
    ok, sessions := BackfillSessions(lay, rows, store.sessions);
    if !ok { return; }
    store.sessions := sessions;
  }

  method FillPairs(store: SqliteStore, rows: Flat) returns (ok: bool)
    requires Lawful(store.lay)
    modifies store`lists, store`stats
    ensures ok <==> KindDecodes(store.lay, rows)
    ensures ok ==> store.lists == old(store.lists) + ListEntries(store.lay, rows)
    ensures ok ==> WrittenOver(old(store.stats), PendingStats(store.lay, rows), store.stats)
  {
    var lists, stats;
    lists := BackfillLists(store.lay, rows, store.lists);
    store.lists := lists;
    ok, stats := BackfillStats(store.lay, rows, store.stats);
    if !ok { return; }
    store.stats := stats;
  }

  predicate SameTables(a: Db, b: Db) {
    a == b.(kv := a.kv)
  }

  /** What migration `v` and its stamp may leave. */
  ghost predicate Migrated(lay: Layout, before: Db, v: int, after: Db) {
    && after.kv == StampedKv(lay, if v <= 1 then before.kv else FixCollections(lay, before.kv), v)
    && (if v <= 2 then SameTables(before, after) else TablesFilled(lay, Rows(before), before, after))
  }

  method ApplyMigration(store: SqliteStore, v: int) returns (ok: bool)
    requires store.Valid()
    modifies store
    ensures store.Valid()
    ensures ok <==> v <= 2 || Openable(store.lay, Rows(old(store.Now())))
    ensures v <= 1 ==> store.Now() == old(store.Now())
    ensures v == 2 ==> store.Now() == old(store.Now()).(kv := FixCollections(store.lay, old(store.Now()).kv))
    ensures ok && v > 2 ==> Backfilled(store.lay, old(store.Now()), store.Now())
  {
    if v <= 1 { return true; }
    if v == 2 {
      EnsureCollectionColumn(store);
      return true;
    }
    ok := EnsureSchema(store);
  }

  method StampVersion(store: SqliteStore, v: int)
    modifies store`kv
    ensures store.Now() == PutVersion(store.lay, old(store.Now()), v)
  {
    store.PutKv(store.lay.versionKey, VersionValue(v));
  }

  method MigrateOne(store: SqliteStore, v: int) returns (ok: bool)
    requires store.Valid()
    modifies store
    ensures store.Valid()
    ensures ok <==> v <= 2 || Openable(store.lay, Rows(old(store.Now())))
    ensures ok ==> Migrated(store.lay, old(store.Now()), v, store.Now())
  {
    ok := ApplyMigration(store, v);
    if ok { StampVersion(store, v); }
  }

  /** How far the migrations have come: the last version stamped, whether rows are retagged and tables filled. */
  ghost predicate Progress(lay: Layout, start: Db, now: Db, stamped: Option<int>, fixed: bool, filled: bool) {
    && FixCollections(lay, now.kv) == StampedOnce(lay, FixCollections(lay, start.kv), stamped)
    && (fixed ==> FixCollections(lay, now.kv) == now.kv)
    && (if filled then TablesFilled(lay, Rows(start), start, now) else SameTables(start, now))
  }

  function StampedOnce(lay: Layout, kv: map<string, Tagged>, v: Option<int>): map<string, Tagged> {
    if v.Some? then StampedKv(lay, kv, v.value) else kv
  }

  /** The rows of `rows` stamped with a version, if any was. */
  function Stamped(lay: Layout, rows: Flat, v: Option<int>): Flat {
    match v
    case None => rows
    case Some(n) => rows[lay.versionKey := VersionValue(n)]
  }

  lemma ProgressRows(lay: Layout, start: Db, now: Db, stamped: Option<int>, fixed: bool, filled: bool)
    requires Progress(lay, start, now, stamped, fixed, filled)
    ensures Rows(now) == Stamped(lay, Rows(start), stamped)
  {
    var fixedNow := now.(kv := FixCollections(lay, now.kv));
    RowsFixed(lay, now, fixedNow);
    RowsFixed(lay, start, start.(kv := FixCollections(lay, start.kv)));
  }

  lemma ProgressMade(lay: Layout, start: Db, before: Db, stamped: Option<int>, fixed: bool, filled: bool, v: int,
                     after: Db)
    requires Lawful(lay) && Progress(lay, start, before, stamped, fixed, filled) && Migrated(lay, before, v, after)
    requires (fixed ==> v >= 2) && (filled ==> v >= 3)
    ensures Progress(lay, start, after, Some(v), v >= 2, v >= 3)
  {
    KvMade(lay, start.kv, before.kv, stamped, v, after.kv);
    if v >= 3 {
      ProgressRows(lay, start, before, stamped, fixed, filled);
      TablesMade(lay, Rows(start), start, before, stamped, filled, after);
    }
  }

  lemma KvMade(lay: Layout, start: map<string, Tagged>, before: map<string, Tagged>, stamped: Option<int>, v: int,
               after: map<string, Tagged>)
    requires FixCollections(lay, before) == StampedOnce(lay, FixCollections(lay, start), stamped)
    requires after == StampedKv(lay, if v <= 1 then before else FixCollections(lay, before), v)
    ensures FixCollections(lay, after) == StampedKv(lay, FixCollections(lay, start), v)
    ensures v >= 2 ==> FixCollections(lay, after) == after
  {
    FixTwice(lay, before);
    FixThenTag(lay, before, lay.versionKey, VersionValue(v));
    FixThenTag(lay, FixCollections(lay, before), lay.versionKey, VersionValue(v));
  }

  lemma TablesMade(lay: Layout, rows: Flat, start: Db, before: Db, stamped: Option<int>, filled: bool, after: Db)
    requires Lawful(lay) && TablesFilled(lay, Stamped(lay, rows, stamped), before, after)
    requires if filled then TablesFilled(lay, rows, start, before) else SameTables(start, before)
    ensures TablesFilled(lay, rows, start, after)
  {
    if stamped.Some? { VersionPending(lay, rows, VersionValue(stamped.value)); }
    if filled { FilledTwice(lay, rows, start, before, after); }
  }

  lemma StampedOpens(lay: Layout, rows: Flat, v: Option<int>)
    requires Lawful(lay)
    ensures Openable(lay, Stamped(lay, rows, v)) <==> Openable(lay, rows)
  {
    VersionRowOpens(lay, rows);
    if v.Some? { VersionOpens(lay, rows, v.value); }
  }

  /** Applies each missing migration and stamps its version, until one fails. */
  method Migrate(store: SqliteStore, current: int, last: int) returns (ok: bool)
    requires store.Valid() && current < last && 3 <= last
    modifies store
    ensures store.Valid()
    ensures ok <==> Openable(store.lay, Rows(old(store.Now())))
    ensures ok ==> Progress(store.lay, old(store.Now()), store.Now(), Some(last), true, true)
  {
    ghost var start, stamped: Option<int> := store.Now(), None;
    for v := 1 to last + 1
      invariant store.Valid()
      invariant Progress(store.lay, start, store.Now(), stamped, 2 < v && current + 1 < v, 3 < v && current + 1 < v)
      invariant 1 < v && current + 1 < v ==> stamped == Some(v - 1)
      invariant 3 < v && current + 1 < v ==> Openable(store.lay, Rows(start))
    {
      if current < v {
        ghost var before := store.Now();
        ProgressRows(store.lay, start, before, stamped, 2 < v && current + 1 < v, 3 < v && current + 1 < v);
        StampedOpens(store.lay, Rows(start), stamped);
        ok := MigrateOne(store, v);
        if !ok { return; }
        ProgressMade(store.lay, start, before, stamped, 2 < v && current + 1 < v, 3 < v && current + 1 < v, v,
                     store.Now());
        stamped := Some(v);
      }
    }
    ok := true;
  }

  /** Applies what migrations are missing, or only the backfill when there are none. */
  method RunMigrations(store: SqliteStore) returns (ok: bool)
    requires store.Valid()
    modifies store
    ensures store.Valid()
    ensures ok <==> Openable(store.lay, Rows(old(store.Now())))
    ensures ok ==> OpenedAs(store.lay, old(store.Now()), store.Now())
    ensures ok ==> Rows(store.Now()) == WithCurrentVersion(store.lay, Rows(old(store.Now())))
    ensures ok && Settled(store.lay, Rows(old(store.Now()))) ==> store.Now() == Reopened(store.lay, old(store.Now()))
  {
    ghost var before := store.Now();
    var current := VersionOf(store.lay, Rows(store.Now()));
    if current >= SCHEMA_VERSION {
      ok := EnsureSchema(store);
    } else {
      ok := Migrate(store, current, SCHEMA_VERSION);
    }
    if ok {
      OpenedRows(store.lay, before, store.Now());
      if Settled(store.lay, Rows(before)) { OpenedIsReopened(store.lay, before, store.Now()); }
    }
  }

  /** Opening a database a second time succeeds if it did the first time, and on settled rows changes nothing. */
  method OpenAgain(store: SqliteStore) returns (ok: bool, ghost once: Db)
    requires store.Valid()
    modifies store
    ensures store.Valid()
    ensures ok <==> Openable(store.lay, Rows(old(store.Now())))
    ensures ok ==> OpenedAs(store.lay, old(store.Now()), once) && OpenedAs(store.lay, once, store.Now())
    ensures ok ==> Rows(store.Now()) == Rows(once)
    ensures ok && Settled(store.lay, Rows(old(store.Now()))) ==> store.Now() == once
  {
    ghost var before := store.Now();
    ok := RunMigrations(store);
    once := store.Now();
    if !ok { return; }
    OpenedOpens(store.lay, Rows(before));
    ok := RunMigrations(store);
    if Settled(store.lay, Rows(before)) { OpenTwice(store.lay, before, once, store.Now()); }
  }

  lemma OpenedOpens(lay: Layout, rows: Flat)
    requires Lawful(lay)
    ensures Openable(lay, WithCurrentVersion(lay, rows)) <==> Openable(lay, rows)
    ensures WithCurrentVersion(lay, WithCurrentVersion(lay, rows)) == WithCurrentVersion(lay, rows)
  {
    StampedOpens(lay, rows, Some(SCHEMA_VERSION));
  }

  predicate InRange(key: string, prefix: string) {
    !Less(key, prefix) && Less(key, prefix + [TOP_BYTE])
  }

  // ----- which rows the backfill selects

  /** Tags as the store writes them, or left by a database from before there were any. */
  predicate OwnTags(lay: Layout, kv: map<string, Tagged>) {
    forall key | key in kv :: kv[key].collection in {lay.collection(key), "unknown", ""}
  }

  lemma StepKeepsTags(lay: Layout, db: Db, op: Op)
    requires OwnTags(lay, db.kv)
    ensures OwnTags(lay, SqlStep(lay, db, op).0.kv)
  {
    match op
    case DeleteClient(k) => DeleteKeepsTags(lay, db, lay.clientKey(k));
    case RemoveDomain(p) => DeleteKeepsTags(lay, db, lay.listKey(p));
    case DeleteSession(t) => DeleteKeepsTags(lay, db, lay.sessionKey(t));
    case _ =>
  }

  lemma DeleteKeepsTags(lay: Layout, db: Db, key: string)
    requires OwnTags(lay, db.kv)
    ensures OwnTags(lay, SqlDelete(lay, db, key).0.kv)
  {
    assert SqlDelete(lay, db, key).0.kv in {db.kv, db.kv - {key}};
  }

  /**
   * `WHERE collection = ? OR key >= ? AND key < ?`, asked of retagged rows, selects the rows whose key is of the
   * collection.
   */
  lemma SelectedByKey(snapshots: (string, Value) -> bool, kv: map<string, Tagged>, key: string, name: string)
    requires OwnTags(SisLayout(snapshots), kv) && key in kv
    requires name != "" && ColonFree(name) && name != "unknown"
    ensures var fixed := FixCollections(SisLayout(snapshots), kv);
      fixed[key].collection == name || InRange(key, name + ":") <==> CollectionName(key) == name
  {
    NameIffPrefix(key, name);
    RangeIsPrefix(key, name + ":", TOP_BYTE);
  }
}

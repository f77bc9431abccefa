/**
 * The keys of the flat store (internal/store/file.go, internal/store/sqlite.go):
 * how they are built, how they are taken apart again, and what a range scan
 * selects. A string is a sequence of bytes, one per character.
 */
module StoreKeys {
  import opened Options
  import opened Ordering
  import opened StorePayloads

  /** The position of the first colon, or the length. */
  function Colon(s: string): (i: nat)
    ensures i <= |s| && (forall j | 0 <= j < i :: s[j] != ':') && (i < |s| ==> s[i] == ':')
  {
    if s == "" || s[0] == ':' then 0 else 1 + Colon(s[1..])
  }

  predicate ColonFree(s: string) {
    forall i | 0 <= i < |s| :: s[i] != ':'
  }

  lemma ColonAt(s: string, i: nat)
    requires i < |s| && s[i] == ':' && ColonFree(s[..i])
    ensures Colon(s) == i
  {
    assert forall j | 0 <= j < i :: s[j] == s[..i][j];
  }

  /** The part before the first colon; a key without one belongs to no collection. */
  function CollectionName(key: string): string {
    var i := Colon(key);
    if 0 < i < |key| then key[..i] else "unknown"
  }

  function TrimPrefix(s: string, prefix: string): string {
    if prefix <= s then s[|prefix|..] else s
  }

  datatype Pair = Pair(first: string, second: string)

  /** A pair that its key can be taken apart into again. */
  predicate Separable(p: Pair) {
    p.first != "" && ColonFree(p.first) && p.second != ""
  }

  function Taken(p: Pair): Option<Pair> {
    if Separable(p) then Some(p) else None
  }

  function PairPrefix(name: string, first: string): string {
    name + ":" + first + ":"
  }

  predicate Under(name: string, first: string, key: string) {
    PairPrefix(name, first) <= key
  }

  function PairKey(name: string, p: Pair): string {
    PairPrefix(name, p.first) + p.second
  }

  /** splitCustomListKey and splitStatsKey: cut at the first colon after the collection. */
  function SplitPair(name: string, key: string): Option<Pair> {
    if name + ":" <= key then
      var rest := key[|name| + 1..];
      var i := Colon(rest);
      if 0 < i < |rest| && i + 1 < |rest| then Some(Pair(rest[..i], rest[i + 1..])) else None
    else None
  }

  /** Belonging to a collection is having its prefix. */
  lemma NameIffPrefix(key: string, name: string)
    requires name != "" && ColonFree(name) && name != "unknown"
    ensures CollectionName(key) == name <==> name + ":" <= key
  {
    if name + ":" <= key {
      assert key[..|name|] == (name + ":")[..|name|] == name;
      assert key[|name|] == (name + ":")[|name|] == ':';
      ColonAt(key, |name|);
    }
  }

  lemma SplitOfKey(name: string, p: Pair)
    requires ColonFree(p.first)
    ensures SplitPair(name, PairKey(name, p)) == Taken(p)
  {
    var key := PairKey(name, p);
    var rest := key[|name| + 1..];
    assert key[..|name| + 1] == name + ":";
    assert rest == p.first + ":" + p.second;
    assert rest[..|p.first|] == p.first;
    ColonAt(rest, |p.first|);
  }

  lemma KeyOfSplit(name: string, key: string)
    requires SplitPair(name, key).Some?
    ensures Separable(SplitPair(name, key).value) && PairKey(name, SplitPair(name, key).value) == key
  {
    var rest := key[|name| + 1..];
    var i := Colon(rest);
    assert key == key[..|name| + 1] + rest;
    assert rest == rest[..i] + [rest[i]] + rest[i + 1..];
  }

  /** The key of this pair comes apart, into this pair or another. */
  predicate ComesApart(p: Pair) {
    p.first != "" && p.first[0] != ':' && (p.second != "" || !ColonFree(p.first))
  }

  lemma ComesApartIff(name: string, p: Pair)
    ensures SplitPair(name, PairKey(name, p)).Some? <==> ComesApart(p)
  {
    var key := PairKey(name, p);
    var rest := key[|name| + 1..];
    assert key[..|name| + 1] == name + ":";
    assert rest == p.first + ":" + p.second;
    assert rest[|p.first|] == ':';
    assert p.first != "" ==> rest[0] == p.first[0];
    assert forall i | 0 <= i < |p.first| :: rest[i] == p.first[i];
    assert Colon(rest) <= |p.first|;
  }

  /** Without a colon in it, a pair is the only one with its key. */
  lemma ColonFreeIsUnique(name: string, p: Pair, q: Pair)
    requires ColonFree(p.first) && ColonFree(p.second) && PairKey(name, p) == PairKey(name, q)
    ensures p == q
  {
    var rest, n := PairKey(name, p)[|name| + 1..], |name| + 1;
    assert rest == p.first + ":" + p.second;
    assert PairKey(name, q)[n..] == q.first + ":" + q.second;
    assert rest[|q.first|] == ':';
    assert forall i | |p.first| < i < |rest| :: rest[i] == p.second[i - |p.first| - 1];
    assert |q.first| == |p.first|;
    assert rest[..|p.first|] == p.first && rest[..|q.first|] == q.first;
    assert rest[|p.first| + 1..] == p.second && rest[|q.first| + 1..] == q.second;
  }

  /** With one, another pair has the same key. */
  lemma ColonIsAmbiguous(name: string, p: Pair) returns (q: Pair)
    requires !(ColonFree(p.first) && ColonFree(p.second))
    ensures q != p && PairKey(name, q) == PairKey(name, p)
  {
    if !ColonFree(p.first) {
      var i := Colon(p.first);
      var a, b := p.first[..i], p.first[i + 1..];
      assert p.first == a + ":" + b;
      q := Pair(a, b + ":" + p.second);
      assert PairKey(name, q) == name + ":" + a + ":" + b + ":" + p.second;
    } else {
      var i := Colon(p.second);
      var a, b := p.second[..i], p.second[i + 1..];
      assert p.second == a + ":" + b;
      q := Pair(p.first + ":" + a, b);
      assert PairKey(name, q) == name + ":" + p.first + ":" + a + ":" + b;
    }
  }

  // ----- the layout of keys, abstractly and as it is

  datatype Kind = ClientKind | SessionKind | ListKind | StatsKind | OtherKind

  /**
   * How keys are built, and how each backend recognises them and takes them apart; for a row of no table here, whether
   * its payload decodes.
   */
  datatype Layout = Layout(
    kind: string -> Kind, collection: string -> string,
    clientKey: string -> string, clientOf: string -> string,
    sessionKey: string -> string, sessionOf: string -> string,
    listKey: Pair -> string, listOf: string -> Option<Pair>,
    inList: (string, string) -> bool, domainIn: (string, string) -> string,
    statsKey: Pair -> string, statsOf: string -> Option<Pair>,
    inStats: (string, string) -> bool, bucketIn: (string, string) -> string,
    versionKey: string, decodes: (string, Value) -> bool)

  /** Clients and sessions are found under the names they were stored under. */
  predicate NameLaw(lay: Layout, k: string) {
    && lay.kind(lay.clientKey(k)) == ClientKind && lay.clientOf(lay.clientKey(k)) == k
    && lay.kind(lay.sessionKey(k)) == SessionKind && lay.sessionOf(lay.sessionKey(k)) == k
  }

  /**
   * A pair is found under its first part; with a colon-free first part it comes apart again
   * exactly when both parts are there.
   */
  predicate PairLaw(lay: Layout, p: Pair) {
    && lay.kind(lay.listKey(p)) == ListKind && (ColonFree(p.first) ==> lay.listOf(lay.listKey(p)) == Taken(p))
    && lay.inList(p.first, lay.listKey(p)) && lay.domainIn(p.first, lay.listKey(p)) == p.second
    && lay.kind(lay.statsKey(p)) == StatsKind && (ColonFree(p.first) ==> lay.statsOf(lay.statsKey(p)) == Taken(p))
    && lay.inStats(p.first, lay.statsKey(p)) && lay.bucketIn(p.first, lay.statsKey(p)) == p.second
  }

  /** Taking a key apart and putting it together gives the key. */
  predicate KeyLaw(lay: Layout, key: string) {
    && (lay.kind(key) == ClientKind ==> lay.clientKey(lay.clientOf(key)) == key)
    && (lay.kind(key) == SessionKind ==> lay.sessionKey(lay.sessionOf(key)) == key)
    && (lay.listOf(key).Some? ==>
          lay.kind(key) == ListKind && Separable(lay.listOf(key).value) && lay.listKey(lay.listOf(key).value) == key)
    && (lay.statsOf(key).Some? ==>
          lay.kind(key) == StatsKind && Separable(lay.statsOf(key).value)
            && lay.statsKey(lay.statsOf(key).value) == key)
  }

  /** The keys under the prefix of a list or granularity are those of pairs with that first part. */
  predicate PrefixLaw(lay: Layout, first: string, key: string) {
    && (lay.inList(first, key) ==> lay.listKey(Pair(first, lay.domainIn(first, key))) == key)
    && (lay.inStats(first, key) ==> lay.statsKey(Pair(first, lay.bucketIn(first, key))) == key)
  }

  /** The laws hold of every key; each is used where it is named. */
  ghost predicate Lawful(lay: Layout) {
    && (forall k {:trigger NameLaw(lay, k)} :: NameLaw(lay, k))
    && (forall p {:trigger PairLaw(lay, p)} :: PairLaw(lay, p))
    && (forall key {:trigger KeyLaw(lay, key)} :: KeyLaw(lay, key))
    && (forall first, key {:trigger PrefixLaw(lay, first, key)} :: PrefixLaw(lay, first, key))
    && lay.kind(lay.versionKey) == OtherKind && (forall value :: lay.decodes(lay.versionKey, value))
  }

  function KindOf(key: string): Kind {
    var name := CollectionName(key);
    if name == "clients" then ClientKind
    else if name == "session" then SessionKind
    else if name == "customlist" then ListKind
    else if name == "stats" then StatsKind
    else OtherKind
  }

  function KeyIn(name: string, k: string): string {
    name + ":" + k
  }

  /** A row of the configuration history is taken if it holds a snapshot, any other row of no table always. */
  predicate OtherDecodes(snapshots: (string, Value) -> bool, key: string, value: Value) {
    CollectionName(key) == "confhist" ==> snapshots(key, value)
  }

  /**
   * The layout both backends use. Which payloads are snapshots, with an instant of their own or from their key, is a
   * parameter.
   */
  function SisLayout(snapshots: (string, Value) -> bool): Layout {
    Layout(
      KindOf, CollectionName,
      k => KeyIn("clients", k), key => TrimPrefix(key, "clients:"),
      k => KeyIn("session", k), key => TrimPrefix(key, "session:"),
      p => PairKey("customlist", p), key => SplitPair("customlist", key),
      (l, key) => Under("customlist", l, key), (l, key) => TrimPrefix(key, PairPrefix("customlist", l)),
      p => PairKey("stats", p), key => SplitPair("stats", key),
      (g, key) => Under("stats", g, key), (g, key) => TrimPrefix(key, PairPrefix("stats", g)),
      KeyIn("store_meta", "schema_version"), (key, value) => OtherDecodes(snapshots, key, value))
  }

  lemma KindIffPrefix(key: string)
    ensures KindOf(key) == ClientKind <==> "clients:" <= key
    ensures KindOf(key) == SessionKind <==> "session:" <= key
    ensures KindOf(key) == ListKind <==> "customlist:" <= key
    ensures KindOf(key) == StatsKind <==> "stats:" <= key
  {
    NameIffPrefix(key, "clients");
    NameIffPrefix(key, "session");
    NameIffPrefix(key, "customlist");
    NameIffPrefix(key, "stats");
    assert "clients" + ":" == "clients:" && "session" + ":" == "session:";
    assert "customlist" + ":" == "customlist:" && "stats" + ":" == "stats:";
  }

  lemma SisNameLaw(snapshots: (string, Value) -> bool, k: string)
    ensures NameLaw(SisLayout(snapshots), k)
  {
    assert "clients" + ":" == "clients:" && "session" + ":" == "session:";
    KindIffPrefix(KeyIn("clients", k));
    KindIffPrefix(KeyIn("session", k));
  }

  lemma SisPairLaw(snapshots: (string, Value) -> bool, p: Pair)
    ensures PairLaw(SisLayout(snapshots), p)
  {
    assert "customlist" + ":" == "customlist:" && "stats" + ":" == "stats:";
    assert PairKey("customlist", p)[..|"customlist:"|] == "customlist:";
    KindIffPrefix(PairKey("customlist", p));
    assert PairKey("stats", p)[..|"stats:"|] == "stats:";
    KindIffPrefix(PairKey("stats", p));
    if ColonFree(p.first) {
      SplitOfKey("customlist", p);
      SplitOfKey("stats", p);
    }
  }

  lemma SisKeyLaw(snapshots: (string, Value) -> bool, key: string)
    ensures KeyLaw(SisLayout(snapshots), key)
  {
    KindIffPrefix(key);
    assert "clients" + ":" == "clients:" && "session" + ":" == "session:";
    assert "customlist" + ":" == "customlist:" && "stats" + ":" == "stats:";
    if SplitPair("customlist", key).Some? { KeyOfSplit("customlist", key); }
    if SplitPair("stats", key).Some? { KeyOfSplit("stats", key); }
  }

  lemma SisPrefixLaw(snapshots: (string, Value) -> bool, first: string, key: string)
    ensures PrefixLaw(SisLayout(snapshots), first, key)
  {
  }

  lemma OtherCollection(name: string, k: string)
    requires name != "" && ColonFree(name) && name !in {"unknown", "clients", "session", "customlist", "stats"}
    ensures KindOf(KeyIn(name, k)) == OtherKind && CollectionName(KeyIn(name, k)) == name
  {
    NameIffPrefix(KeyIn(name, k), name);
  }

  /** Keys of different collections never collide and every key comes apart the way it was put together. */
  lemma SisLayoutIsLawful(snapshots: (string, Value) -> bool)
    ensures Lawful(SisLayout(snapshots))
  {
    OtherCollection("store_meta", "schema_version");
    forall k ensures NameLaw(SisLayout(snapshots), k) { SisNameLaw(snapshots, k); }
    forall p ensures PairLaw(SisLayout(snapshots), p) { SisPairLaw(snapshots, p); }
    forall key ensures KeyLaw(SisLayout(snapshots), key) { SisKeyLaw(snapshots, key); }
    forall first, key ensures PrefixLaw(SisLayout(snapshots), first, key) { SisPrefixLaw(snapshots, first, key); }
  }

  // ----- range scans

  /** `key >= p AND key < p + top`: the keys with prefix `p` whose next byte, if any, is below `top`. */
  lemma {:induction false} RangeIsPrefix(key: string, p: string, top: char)
    ensures (!Less(key, p) && Less(key, p + [top])) <==> (p <= key && (|key| == |p| || key[|p|] < top))
  {
    if p == "" {
      assert p + [top] == [top];
    } else if key != "" && key[0] == p[0] {
      RangeIsPrefix(key[1..], p[1..], top);
      assert (p + [top])[1..] == p[1..] + [top];
      assert p <= key <==> p[1..] <= key[1..] by {
        assert p == [p[0]] + p[1..] && key == [key[0]] + key[1..];
      }
    } else {
      assert (p + [top])[0] == p[0];
    }
  }

  const TOP_BYTE: char := '\U{FF}'

  predicate IsBytes(s: string) {
    forall i | 0 <= i < |s| :: s[i] <= TOP_BYTE
  }

  /**
   * Over byte strings the scan misses exactly the keys that go on with byte 0xff, so without that byte it is the
   * prefix test.
   */
  lemma ScanSelectsPrefix(key: string, p: string)
    requires IsBytes(key)
    ensures (!Less(key, p) && Less(key, p + [TOP_BYTE])) <==> (p <= key && !(p + [TOP_BYTE] <= key))
    ensures TOP_BYTE !in key ==> ((!Less(key, p) && Less(key, p + [TOP_BYTE])) <==> p <= key)
  {
    RangeIsPrefix(key, p, TOP_BYTE);
    if p <= key && |key| > |p| {
      assert p + [TOP_BYTE] <= key <==> key[|p|] == TOP_BYTE by {
        assert key == p + [key[|p|]] + key[|p| + 1..];
        if p + [TOP_BYTE] <= key { assert (p + [TOP_BYTE])[|p|] == key[|p|]; }
      }
    }
  }
}

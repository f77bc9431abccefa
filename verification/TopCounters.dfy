/**
 * Bounded top-N tables (internal/stats/counters.go): a map of counts that is
 * pruned when it grows too large, and the ranking read from it.
 */
module TopCounters {
  import opened Ordering

  const MAX_TRACKED := 10000
  const PRUNE_TO := 8000

  datatype Item = Item(key: string, count: nat)

  /** The ranking order: more first, then by key. */
  predicate Outranks(a: Item, b: Item) {
    if a.count == b.count then Less(a.key, b.key) else a.count > b.count
  }

  /** The eviction order: fewer first, then by key from the end. */
  predicate EvictedBefore(a: Item, b: Item) {
    if a.count == b.count then Less(b.key, a.key) else a.count < b.count
  }

  ghost function Items(values: map<string, nat>): set<Item> {
    set k | k in values :: Item(k, values[k])
  }

  /** All items, best first. */
  ghost function Ranking(values: map<string, nat>): seq<Item> {
    Listing(Items(values), Outranks)
  }

  function Limit(n: int): nat {
    if n <= 0 || n > 100 then 10 else n
  }

  ghost function Prefix(items: seq<Item>, n: nat): seq<Item> {
    if |items| > n then items[..n] else items
  }

  /** What the table shows for a request of `n` items. */
  ghost function Top(values: map<string, nat>, n: int): seq<Item> {
    Prefix(Ranking(values), Limit(n))
  }

  /** The table reduced to its best `target` items. */
  ghost function Pruned(values: map<string, nat>, target: nat): map<string, nat> {
    map k | k in values && Item(k, values[k]) in Prefix(Ranking(values), target) :: values[k]
  }

  // ----- the order

  lemma OutranksIsTotal(items: seq<Item>)
    ensures StrictTotalOn(Outranks, items)
  {
    forall x, y | x in items && y in items
      ensures !(Outranks(x, y) && Outranks(y, x))
      ensures x == y || Outranks(x, y) || Outranks(y, x)
    {
      LessTotal(x.key, y.key);
      LessAsymmetric(x.key, y.key);
    }
    forall x, y, z | x in items && y in items && z in items && Outranks(x, y)
      ensures Outranks(x, z) || Outranks(z, y)
    {
      LessTotal(x.key, z.key);
      if Less(z.key, x.key) && Less(x.key, y.key) { LessTransitive(z.key, x.key, y.key); }
    }
  }

  /** Evicting goes through the ranking from its end. */
  lemma EvictionIsReverse(a: Item, b: Item)
    ensures EvictedBefore(a, b) <==> Outranks(b, a)
  {
  }

  lemma EvictionIsTotal(items: seq<Item>)
    ensures StrictTotalOn(EvictedBefore, items)
  {
    OutranksIsTotal(items);
    forall x, y, z | x in items && y in items && z in items && EvictedBefore(x, y)
      ensures EvictedBefore(x, z) || EvictedBefore(z, y)
    {
      assert Outranks(y, x);
    }
  }

  /** A sorted enumeration of the items is the ranking. */
  lemma IsRanking(items: seq<Item>, values: map<string, nat>)
    requires NoDuplicates(items) && SortedBy(items, Outranks)
    requires forall x :: x in items <==> x in Items(values)
    ensures items == Ranking(values)
  {
    OutranksIsTotal(items);
    SortIsListing(items, Items(values), Outranks);
    SortSorts(items, Outranks);
    SortedUnique(items, Sort(items, Outranks), Outranks);
  }

  /** ... and the ranking is one. */
  lemma RankingIsSorted(values: map<string, nat>)
    ensures NoDuplicates(Ranking(values)) && SortedBy(Ranking(values), Outranks)
    ensures |Ranking(values)| == |values|
  {
    var items := Enumerate(Items(values));
    OutranksIsTotal(items);
    SortSorts(items, Outranks);
    PermutationKeepsDistinct(items, Ranking(values));
    OneItemPerKey(values);
  }

  lemma {:induction false} OneItemPerKey(values: map<string, nat>)
    ensures |Items(values)| == |values|
  {
    if values.Keys == {} {
      assert Items(values) == {};
    } else {
      var k :| k in values;
      var rest := values - {k};
      OneItemPerKey(rest);
      assert Items(values) == Items(rest) + {Item(k, values[k])};
      assert values.Keys == rest.Keys + {k};
      assert |values| == |values.Keys| && |rest| == |rest.Keys|;
    }
  }

  lemma InItems(values: map<string, nat>, x: Item)
    ensures x in Items(values) <==> x.key in values && values[x.key] == x.count
  {
    if x.key in values && values[x.key] == x.count { assert Item(x.key, values[x.key]) in Items(values); }
  }

  // ----- what the ranking means for the counts

  /** These entries of the table, in falling count and, where counts are equal, in rising key. */
  ghost predicate ListsBest(items: seq<Item>, values: map<string, nat>) {
    && (forall i | 0 <= i < |items| :: items[i].key in values && values[items[i].key] == items[i].count)
    && (forall i, j | 0 <= i < j < |items| ::
          items[i].count > items[j].count || (items[i].count == items[j].count && Less(items[i].key, items[j].key)))
  }

  ghost predicate Listed(items: seq<Item>, key: string) {
    exists i | 0 <= i < |items| :: items[i].key == key
  }

  /** No other key has a higher count than one listed, nor the same count and an earlier key. */
  ghost predicate NoneBetter(items: seq<Item>, values: map<string, nat>) {
    forall k, i | k in values && !Listed(items, k) && 0 <= i < |items| ::
      values[k] < items[i].count || (values[k] == items[i].count && Less(items[i].key, k))
  }

  lemma RankingFalls(values: map<string, nat>, i: nat, j: nat)
    requires i < j < |Ranking(values)|
    ensures var a, b := Ranking(values)[i], Ranking(values)[j];
      a.count > b.count || (a.count == b.count && Less(a.key, b.key))
  {
    RankingIsSorted(values);
    OutranksIsTotal(Ranking(values));
    assert Ranking(values)[i] in Ranking(values) && Ranking(values)[j] in Ranking(values);
  }

  lemma PrefixListsBest(values: map<string, nat>, n: nat)
    ensures ListsBest(Prefix(Ranking(values), n), values)
  {
    var items := Prefix(Ranking(values), n);
    forall i | 0 <= i < |items| ensures items[i].key in values && values[items[i].key] == items[i].count {
      assert items[i] in Ranking(values);
      InItems(values, items[i]);
    }
    forall i, j | 0 <= i < j < |items|
      ensures items[i].count > items[j].count || (items[i].count == items[j].count && Less(items[i].key, items[j].key))
    {
      RankingFalls(values, i, j);
    }
  }

  /** A key that the prefix leaves out comes later in the ranking. */
  lemma PrefixLeavesWorse(values: map<string, nat>, n: nat)
    ensures NoneBetter(Prefix(Ranking(values), n), values)
  {
    var ranking, items := Ranking(values), Prefix(Ranking(values), n);
    forall k, i | k in values && !Listed(items, k) && 0 <= i < |items|
      ensures values[k] < items[i].count || (values[k] == items[i].count && Less(items[i].key, k))
    {
      InItems(values, Item(k, values[k]));
      var j :| 0 <= j < |ranking| && ranking[j] == Item(k, values[k]);
      assert forall m | 0 <= m < |items| :: items[m] == ranking[m] && items[m].key != k;
      RankingFalls(values, i, j);
    }
  }

  lemma PrefixIsBest(values: map<string, nat>, n: nat)
    ensures var items := Prefix(Ranking(values), n);
      ListsBest(items, values) && NoneBetter(items, values) && |items| == if |values| < n then |values| else n
  {
    RankingIsSorted(values);
    PrefixListsBest(values, n);
    PrefixLeavesWorse(values, n);
  }

  /** A dropped key has no higher count than a kept one, and if they tie it comes later. */
  predicate Behind(left: map<string, nat>, values: map<string, nat>, gone: string, kept: string) {
    gone in values && gone !in left && kept in left ==>
      && kept in values
      && (values[gone] < values[kept] || (values[gone] == values[kept] && Less(kept, gone)))
  }

  /** The best `target` items are kept as they were, and every dropped key is behind every kept one. */
  ghost predicate KeepsBest(left: map<string, nat>, values: map<string, nat>, target: nat) {
    && |left| == (if |values| < target then |values| else target)
    && (forall k | k in left :: k in values && left[k] == values[k])
    && (forall gone, kept {:trigger Behind(left, values, gone, kept)} :: Behind(left, values, gone, kept))
  }

  /** Pruning keeps the keys that the head of the ranking lists. */
  lemma KeptIffListed(values: map<string, nat>, target: nat, k: string)
    requires k in values
    ensures k in Pruned(values, target) <==> Listed(Prefix(Ranking(values), target), k)
  {
    var items := Prefix(Ranking(values), target);
    PrefixListsBest(values, target);
    if Listed(items, k) {
      var i :| 0 <= i < |items| && items[i].key == k;
      assert items[i] == Item(k, values[k]) && items[i] in items;
    }
  }

  lemma ListedBeatsUnlisted(items: seq<Item>, values: map<string, nat>, gone: string, kept: string)
    requires ListsBest(items, values) && NoneBetter(items, values)
    requires gone in values && !Listed(items, gone) && kept in values && Listed(items, kept)
    ensures values[gone] < values[kept] || (values[gone] == values[kept] && Less(kept, gone))
  {
    var i :| 0 <= i < |items| && items[i].key == kept;
  }

  lemma DroppedAreBehind(values: map<string, nat>, target: nat, gone: string, kept: string)
    ensures Behind(Pruned(values, target), values, gone, kept)
  {
    if gone in values && gone !in Pruned(values, target) && kept in Pruned(values, target) {
      PrefixListsBest(values, target);
      PrefixLeavesWorse(values, target);
      KeptIffListed(values, target, gone);
      KeptIffListed(values, target, kept);
      ListedBeatsUnlisted(Prefix(Ranking(values), target), values, gone, kept);
    }
  }

  lemma PrunedIsPart(values: map<string, nat>, target: nat)
    ensures |Pruned(values, target)| == if |values| < target then |values| else target
    ensures forall k | k in Pruned(values, target) :: k in values && Pruned(values, target)[k] == values[k]
  {
    PruningKeepsRanking(values, target);
  }

  lemma PrunedKeepsBest(values: map<string, nat>, target: nat)
    ensures KeepsBest(Pruned(values, target), values, target)
  {
    var left := Pruned(values, target);
    PrunedIsPart(values, target);
    forall gone, kept ensures Behind(left, values, gone, kept) { DroppedAreBehind(values, target, gone, kept); }
  }

  // ----- pruning and the ranking

  /** Pruning keeps the head of the ranking, in order, and nothing else. */
  lemma PruningKeepsRanking(values: map<string, nat>, target: nat)
    ensures Ranking(Pruned(values, target)) == Prefix(Ranking(values), target)
    ensures |Pruned(values, target)| == if |values| > target then target else |values|
  {
    RankingIsSorted(values);
    var kept := Prefix(Ranking(values), target);
    forall x ensures x in kept <==> x in Items(Pruned(values, target)) {
      if x in kept { assert x in Ranking(values); }
      InItems(values, x);
      InItems(Pruned(values, target), x);
    }
    IsRanking(kept, Pruned(values, target));
    RankingIsSorted(Pruned(values, target));
  }

  /** A prune changes no answer. */
  lemma TopSurvivesPrune(values: map<string, nat>, n: int)
    ensures Top(Pruned(values, PRUNE_TO), n) == Top(values, n)
  {
    PruningKeepsRanking(values, PRUNE_TO);
    PrefixOfPrefix(Ranking(values), Limit(n), PRUNE_TO);
  }

  lemma PrefixOfPrefix(items: seq<Item>, m: nat, n: nat)
    requires m <= n
    ensures Prefix(Prefix(items, n), m) == Prefix(items, m)
  {
  }

  // ----- whole runs

  ghost function Increment(values: map<string, nat>, key: string): map<string, nat> {
    var table := if key !in values && |values| >= MAX_TRACKED then Pruned(values, PRUNE_TO) else values;
    table[key := (if key in table then table[key] else 0) + 1]
  }

  /** The keys added so far, the last one outermost. */
  datatype Adds = Empty | Then(before: Adds, key: string)

  ghost function Run(adds: Adds): map<string, nat> {
    match adds
    case Empty => map[]
    case Then(before, key) => Increment(Run(before), key)
  }

  function TrueCount(adds: Adds, key: string): nat {
    match adds
    case Empty => 0
    case Then(before, k) => TrueCount(before, key) + if k == key then 1 else 0
  }

  function Keys(adds: Adds): set<string> {
    match adds
    case Empty => {}
    case Then(before, key) => Keys(before) + {key}
  }

  lemma IncrementBounds(values: map<string, nat>, key: string)
    requires |values| <= MAX_TRACKED
    ensures |Increment(values, key)| <= MAX_TRACKED
    ensures forall k | k in Increment(values, key) && k != key :: k in values && Increment(values, key)[k] == values[k]
    ensures var was := if key in values then values[key] else 0; 0 < Increment(values, key)[key] <= was + 1
  {
    PruningKeepsRanking(values, PRUNE_TO);
    var table := if key !in values && |values| >= MAX_TRACKED then Pruned(values, PRUNE_TO) else values;
    AddKeySize(table, key, (if key in table then table[key] else 0) + 1);
  }

  /** After any adds the table is bounded, and no count exceeds the number of adds of its key. */
  lemma {:induction false} TableBounds(adds: Adds)
    ensures |Run(adds)| <= MAX_TRACKED
    ensures forall k | k in Run(adds) :: 0 < Run(adds)[k] <= TrueCount(adds, k)
  {
    if adds.Then? {
      TableBounds(adds.before);
      IncrementBounds(Run(adds.before), adds.key);
    }
  }

  lemma AddKeySize(values: map<string, nat>, key: string, n: nat)
    ensures |values[key := n]| == |values| + if key in values then 0 else 1
  {
    assert values[key := n].Keys == values.Keys + {key};
    assert |values.Keys| == |values| && |values[key := n].Keys| == |values[key := n]|;
  }

  /** With no more keys than the table holds, nothing is ever forgotten. */
  lemma {:induction false} ExactWhenFewKeys(adds: Adds)
    requires |Keys(adds)| <= MAX_TRACKED
    ensures Run(adds).Keys == Keys(adds)
    ensures forall k | k in Run(adds) :: Run(adds)[k] == TrueCount(adds, k)
  {
    if adds.Then? {
      SubsetSize(Keys(adds.before), Keys(adds));
      ExactWhenFewKeys(adds.before);
      var values := Run(adds.before);
      if adds.key !in values {
        assert Keys(adds) == values.Keys + {adds.key};
        assert |values| == |values.Keys| < |Keys(adds)|;
        assert forall k | k !in values :: TrueCount(adds.before, k) == 0 by { UnseenIsZero(adds.before); }
      }
    }
  }

  lemma {:induction false} UnseenIsZero(adds: Adds)
    ensures forall k | k !in Keys(adds) :: TrueCount(adds, k) == 0
  {
    if adds.Then? { UnseenIsZero(adds.before); }
  }

  /** A known key, or a new one while there is room, counts one more; otherwise the best 8000 stay beside it. */
  ghost predicate CountsOne(after: map<string, nat>, values: map<string, nat>, key: string) {
    && (key in values ==> after == values[key := values[key] + 1])
    && (key !in values && |values| < 10000 ==> after == values[key := 1])
    && (key !in values && |values| >= 10000 ==>
          exists left :: KeepsBest(left, values, 8000) && key !in left && after == left[key := 1])
  }

  lemma IncrementCountsOne(values: map<string, nat>, key: string)
    ensures CountsOne(Increment(values, key), values, key)
  {
    if key !in values && |values| >= MAX_TRACKED { PrunedKeepsBest(values, PRUNE_TO); }
  }

  // ----- the code

  /** Collects the items of a map in some order. */
  method Collect(values: map<string, nat>) returns (items: seq<Item>)
    ensures NoDuplicates(items) && |items| == |values|
    ensures forall x :: x in items <==> x in Items(values)
  {
    items := [];
    var rest := values.Keys;
    while rest != {}
      invariant rest <= values.Keys && NoDuplicates(items) && |items| + |rest| == |values.Keys|
      invariant forall x :: x in items <==> x.key in values && x.key !in rest && x.count == values[x.key]
    {
      var k :| k in rest;
      rest := rest - {k};
      items := items + [Item(k, values[k])];
    }
  }

  method TopN(values: map<string, nat>, n: int) returns (items: seq<Item>)
    ensures items == Top(values, n)
    ensures ListsBest(items, values) && NoneBetter(items, values)
    ensures var limit := if 1 <= n <= 100 then n else 10; |items| == if |values| < limit then |values| else limit
  {
    PrefixIsBest(values, Limit(n));
    var limit := if n <= 0 || n > 100 then 10 else n;
    var rows := Collect(values);
    OutranksIsTotal(rows);
    SortIsListing(rows, Items(values), Outranks);
    items := Sort(rows, Outranks);
    if |items| > limit { items := items[..limit]; }
  }

  /** Sorting for eviction gives the ranking backwards. */
  lemma EvictionOrder(rows: seq<Item>, values: map<string, nat>)
    requires NoDuplicates(rows) && forall x :: x in rows <==> x in Items(values)
    ensures Sort(rows, EvictedBefore) == Reversed(Ranking(values))
  {
    var sorted := Sort(rows, EvictedBefore);
    EvictionIsTotal(rows);
    SortSorts(rows, EvictedBefore);
    PermutationKeepsDistinct(rows, sorted);
    SameElements(rows, sorted);
    var best := Reversed(sorted);
    ReversedMultiset(sorted);
    PermutationKeepsDistinct(sorted, best);
    SameElements(best, sorted);
    forall i, j | 0 <= i < j < |best| ensures !Outranks(best[j], best[i]) {
      EvictionIsReverse(best[i], best[j]);
    }
    IsRanking(best, values);
    assert Reversed(best) == sorted;
  }

  method DeleteAll(values: map<string, nat>, doomed: seq<Item>) returns (left: map<string, nat>)
    requires forall x | x in doomed :: x in Items(values)
    ensures left == Without(values, doomed)
  {
    left := values;
    for i := 0 to |doomed|
      invariant left == Without(values, doomed[..i])
    {
      assert doomed[i] in doomed;
      InItems(values, doomed[i]);
      assert doomed[..i + 1] == doomed[..i] + [doomed[i]];
      left := left - {doomed[i].key};
    }
    assert doomed[..|doomed|] == doomed;
  }

  ghost function Without(values: map<string, nat>, doomed: seq<Item>): map<string, nat> {
    map k | k in values && Item(k, values[k]) !in doomed :: values[k]
  }

  /** Dropping the head of the eviction order leaves the head of the ranking. */
  lemma WithoutIsPruned(values: map<string, nat>, target: nat)
    requires target < |values|
    ensures |Ranking(values)| == |values|
    ensures Without(values, Reversed(Ranking(values))[..|values| - target]) == Pruned(values, target)
  {
    RankingIsSorted(values);
    Kept(Ranking(values), target);
    forall k | k in values ensures Item(k, values[k]) in Ranking(values) {
      InItems(values, Item(k, values[k]));
    }
  }

  lemma AllKept(values: map<string, nat>, target: nat)
    requires |values| <= target
    ensures Pruned(values, target) == values
  {
    RankingIsSorted(values);
    forall k | k in values ensures Item(k, values[k]) in Ranking(values) {
      InItems(values, Item(k, values[k]));
    }
  }

  /** Deletes all but the best `target` items. */
  method Prune(values: map<string, nat>, target: nat) returns (left: map<string, nat>)
    ensures left == Pruned(values, target) && KeepsBest(left, values, target)
  {
    PrunedKeepsBest(values, target);
    if |values| <= target {
      AllKept(values, target);
      return values;
    }
    var sorted := EvictionList(values);
    WithoutIsPruned(values, target);
    left := DeleteAll(values, sorted[..|sorted| - target]);
  }

  method EvictionList(values: map<string, nat>) returns (sorted: seq<Item>)
    ensures sorted == Reversed(Ranking(values))
    ensures forall x | x in sorted :: x in Items(values)
  {
    var rows := Collect(values);
    EvictionOrder(rows, values);
    sorted := Sort(rows, EvictedBefore);
    SameElements(sorted, rows);
  }

  lemma Kept(ranking: seq<Item>, target: nat)
    requires NoDuplicates(ranking) && target <= |ranking|
    ensures forall x | x in ranking :: x in ranking[..target] <==> x !in Reversed(ranking)[..|ranking| - target]
  {
    var r, doomed := Reversed(ranking), |ranking| - target;
    forall x | x in ranking ensures x in ranking[..target] <==> x !in r[..doomed] {
      var i :| 0 <= i < |ranking| && ranking[i] == x;
      if i >= target { assert r[..doomed][|ranking| - 1 - i] == x; } else { assert ranking[..target][i] == x; }
      if x in r[..doomed] { var j :| 0 <= j < doomed && r[j] == x; }
    }
  }

  method IncrementTopCounter(values: map<string, nat>, key: string) returns (after: map<string, nat>)
    ensures after == Increment(values, key)
    ensures CountsOne(after, values, key)
  {
    after := values;
    IncrementCountsOne(values, key);
    if key !in after && |after| >= MAX_TRACKED { after := Prune(after, PRUNE_TO); }
    after := after[key := (if key in after then after[key] else 0) + 1];
  }

  class Counters {
    var domains: map<string, nat>
    var blockedDomains: map<string, nat>
    var clients: map<string, nat>
    ghost var domainAdds: Adds
    ghost var blockedAdds: Adds
    ghost var clientAdds: Adds

    /** Each table is what its adds make of it. */
    ghost predicate Valid()
      reads this
    {
      domains == Run(domainAdds) && blockedDomains == Run(blockedAdds) && clients == Run(clientAdds)
    }

    constructor ()
      ensures Valid() && domainAdds == blockedAdds == clientAdds == Empty
    {
      domains, blockedDomains, clients := map[], map[], map[];
      domainAdds, blockedAdds, clientAdds := Empty, Empty, Empty;
    }

    method AddDomain(domain: string, blocked: bool)
      requires Valid()
      modifies this
      ensures Valid() && clientAdds == old(clientAdds)
      ensures domainAdds == if domain == "" then old(domainAdds) else Then(old(domainAdds), domain)
      ensures blockedAdds == if domain == "" || !blocked then old(blockedAdds) else Then(old(blockedAdds), domain)
    {
      if domain == "" { return; }
      domains := IncrementTopCounter(domains, domain);
      domainAdds := Then(domainAdds, domain);
      if blocked {
        blockedDomains := IncrementTopCounter(blockedDomains, domain);
        blockedAdds := Then(blockedAdds, domain);
      }
    }

    method AddClient(client: string)
      requires Valid()
      modifies this
      ensures Valid() && domainAdds == old(domainAdds) && blockedAdds == old(blockedAdds)
      ensures clientAdds == if client == "" then old(clientAdds) else Then(old(clientAdds), client)
    {
      if client == "" { return; }
      clients := IncrementTopCounter(clients, client);
      clientAdds := Then(clientAdds, client);
    }

    method TopDomains(n: int, blocked: bool) returns (items: seq<Item>)
      requires Valid()
      ensures items == Top(Run(if blocked then blockedAdds else domainAdds), n)
    {
      if blocked { items := TopN(blockedDomains, n); } else { items := TopN(domains, n); }
    }

    method TopClients(n: int) returns (items: seq<Item>)
      requires Valid()
      ensures items == Top(Run(clientAdds), n)
    {
      items := TopN(clients, n);
    }
  }
}

/**
 The DNS response cache as it is built: a map from keys to elements of a doubly linked list.
 Each operation is proved to refine the sequence operation of LruSpec with the same name.
 */
module DnsCache {
  import opened Options
  import opened DnsMessages
  import Spec = LruSpec

  /** A list element and the entry it carries. */
  class Element {
    const key: Spec.Key
    var entry: Spec.Entry
    var prev: Element?
    var next: Element?

    constructor (entry: Spec.Entry)
      ensures this.key == entry.key && this.entry == entry
    {
      this.key, this.entry := entry.key, entry;
      prev, next := null, null;
    }
  }

  /** No element twice; recursive, so that the verifier unfolds it only where a lemma below is called. */
  ghost predicate Distinct<T>(s: seq<T>) {
    s == [] || (s[0] !in s[1..] && Distinct(s[1..]))
  }

  lemma {:induction false} DistinctAt<T>(s: seq<T>, i: nat)
    requires Distinct(s) && i < |s|
    ensures forall k | 0 <= k < |s| && k != i :: s[k] != s[i]
  {
    assert forall k | 1 <= k < |s| :: s[k] == s[1..][k - 1];
    if i > 0 { DistinctAt(s[1..], i - 1); }
  }

  lemma {:induction false} DistinctWithout<T>(s: seq<T>, i: nat)
    requires Distinct(s) && i < |s|
    ensures Distinct(Spec.RemoveAt(s, i))
    ensures forall x :: x in Spec.RemoveAt(s, i) <==> x in s && x != s[i]
  {
    var r := Spec.RemoveAt(s, i);
    if i == 0 {
      assert r == s[1..] && s == [s[0]] + r;
    } else {
      DistinctWithout(s[1..], i - 1);
      assert s == [s[0]] + s[1..] && r == [s[0]] + Spec.RemoveAt(s[1..], i - 1);
      assert s[i] == s[1..][i - 1] && r[1..] == Spec.RemoveAt(s[1..], i - 1);
    }
  }

  lemma RemovedAt<T>(s: seq<T>, i: nat)
    requires i < |s|
    ensures forall k | 0 <= k < i :: Spec.RemoveAt(s, i)[k] == s[k]
    ensures forall k | i <= k < |s| - 1 :: Spec.RemoveAt(s, i)[k] == s[k + 1]
  {
  }

  /** A doubly linked list; `nodes` is the sequence of its elements from front to back. */
  class LinkedList {
    var front: Element?
    var back: Element?
    ghost var nodes: seq<Element>

    ghost predicate Valid()
      reads this, nodes
    {
      && Distinct(nodes)
      && front == (if nodes == [] then null else nodes[0])
      && back == (if nodes == [] then null else nodes[|nodes| - 1])
      && (forall i {:trigger nodes[i].prev} | 0 <= i < |nodes| ::
        nodes[i].prev == if i == 0 then null else nodes[i - 1])
      && (forall i {:trigger nodes[i].next} | 0 <= i < |nodes| ::
        nodes[i].next == if i == |nodes| - 1 then null else nodes[i + 1])
    }

    constructor ()
      ensures Valid() && nodes == []
    {
      front, back, nodes := null, null, [];
    }

    /** Forgets all elements, as `lru.Init()`. */
    method Clear()
      modifies this
      ensures Valid() && nodes == []
    {
      front, back, nodes := null, null, [];
    }

    method PushFront(e: Element)
      requires Valid() && e !in nodes
      modifies this, nodes`prev, e`prev, e`next
      ensures Valid() && nodes == [e] + old(nodes)
    {
      if nodes != [] { DistinctAt(nodes, 0); }
      e.prev, e.next := null, front;
      if front == null { back := e; } else { front.prev := e; }
      front := e;
      nodes := [e] + nodes;
      assert nodes[1..] == old(nodes);
      assert forall i | 1 <= i < |nodes| :: nodes[i] == old(nodes)[i - 1];
    }

    method Remove(e: Element, ghost i: nat)
      requires Valid() && i < |nodes| && nodes[i] == e
      modifies this, nodes`prev, nodes`next
      ensures Valid() && nodes == Spec.RemoveAt(old(nodes), i)
    {
      DistinctWithout(nodes, i);
      RemovedAt(nodes, i);
      Unlink(e, i);
      nodes := Spec.RemoveAt(nodes, i);
    }

    /** Makes the neighbours of an element each other's. */
    method Unlink(e: Element, ghost i: nat)
      requires Valid() && i < |nodes| && nodes[i] == e
      modifies this`front, this`back, nodes`prev, nodes`next
      ensures front == (if i > 0 then old(front) else if |nodes| > 1 then nodes[1] else null)
      ensures back == (if i < |nodes| - 1 then old(back) else if i > 0 then nodes[i - 1] else null)
      ensures forall k {:trigger nodes[k].prev} | 0 <= k < |nodes| && k != i ::
        nodes[k].prev == if k == 0 || (k == 1 && i == 0) then null else nodes[if k == i + 1 then k - 2 else k - 1]
      ensures forall k {:trigger nodes[k].next} | 0 <= k < |nodes| && k != i ::
        nodes[k].next == if k == |nodes| - 1 || (k == |nodes| - 2 && i == |nodes| - 1) then null
          else nodes[if k == i - 1 then k + 2 else k + 1]
    {
      assert nodes[i].prev == if i == 0 then null else nodes[i - 1];
      assert nodes[i].next == if i == |nodes| - 1 then null else nodes[i + 1];
      if i > 0 { DistinctAt(nodes, i - 1); }
      if i < |nodes| - 1 { DistinctAt(nodes, i + 1); }
      DistinctAt(nodes, i);
      if e.prev == null { front := e.next; } else { e.prev.next := e.next; }
      if e.next == null { back := e.prev; } else { e.next.prev := e.prev; }
    }

    method MoveToFront(e: Element, ghost i: nat)
      requires Valid() && i < |nodes| && nodes[i] == e
      modifies this, nodes`prev, nodes`next
      ensures Valid() && nodes == [e] + Spec.RemoveAt(old(nodes), i)
    {
      DistinctAt(nodes, i);
      DistinctWithout(nodes, i);
      if front == e { return; }
      Remove(e, i);
      PushFront(e);
    }
  }

  /** Lowers the TTLs above `ttl` in place, leaving OPT pseudo-records alone. */
  method SetTTL(records: array<RR>, ttl: nat)
    modifies records
    ensures records[..] == Spec.CapTTLs(old(records[..]), ttl)
  {
    for i := 0 to records.Length
      invariant forall k | 0 <= k < i :: records[k] == Spec.CapRecord(old(records[k]), ttl)
      invariant forall k | i <= k < records.Length :: records[k] == old(records[k])
    {
      if records[i].rrtype != TYPE_OPT {
        if records[i].ttl > ttl { records[i] := records[i].(ttl := ttl); }
      }
    }
  }

  method Capped(records: seq<RR>, ttl: nat) returns (r: seq<RR>)
    ensures r == Spec.CapTTLs(records, ttl)
  {
    var a := new RR[|records|](i requires 0 <= i < |records| => records[i]);
    assert a[..] == records;
    SetTTL(a, ttl);
    r := a[..];
  }

  /** Rebuilds a reply from a stored entry: fresh id and question, TTLs lowered to the seconds left. */
  method Unpacked(entry: Spec.Entry, req: Option<Spec.Rewrite>, now: int) returns (msg: Msg)
    ensures msg == Spec.Rewritten(entry.wire, req, Spec.Remaining(entry.expires, now))
  {
    msg := entry.wire;
    if req.Some? { msg := msg.(id := req.value.id, question := req.value.question); }
    var remaining := ((entry.expires - now) / SECOND) % TWO_TO_THE_32;
    if remaining == 0 { remaining := 1; }
    var answer := Capped(msg.answer, remaining);
    var ns := Capped(msg.ns, remaining);
    var extra := Capped(msg.extra, remaining);
    msg := msg.(answer := answer, ns := ns, extra := extra);
  }

  method TTLFor(limits: Spec.Limits, msg: Msg) returns (ttl: int)
    ensures ttl == Spec.EffectiveTTL(limits, msg) && Spec.Lasts(limits, msg, ttl)
    ensures !Cacheable(msg) ==> ttl == 0
  {
    Spec.EffectiveLasts(limits, msg);
    if msg.rcode == RCODE_NAME_ERROR || (msg.rcode == RCODE_SUCCESS && |msg.answer| == 0) { return limits.negTTL; }
    if msg.rcode != RCODE_SUCCESS { return 0; }
    var min := 0;
    for i := 0 to |msg.answer|
      invariant i > 0 ==> min == Spec.MinTTL(msg.answer[..i])
    {
      var t := msg.answer[i].ttl;
      assert msg.answer[..i + 1][..i] == msg.answer[..i];
      if i == 0 || t < min { min := t; }
    }
    assert msg.answer[..|msg.answer|] == msg.answer;
    ttl := min * SECOND;
    if ttl < limits.minTTL { ttl := limits.minTTL; }
    if ttl > limits.maxTTL { ttl := limits.maxTTL; }
  }

  ghost function Elements(nodes: seq<Element>): set<Element> {
    set n | n in nodes
  }

  /** The map holds exactly these elements, each under its own key. */
  ghost predicate Indexed(items: map<Spec.Key, Element>, elements: set<Element>) {
    && (forall n | n in elements :: n.key in items && items[n.key] == n)
    && (forall k | k in items :: items[k] in elements && items[k].key == k)
  }

  lemma IndexedWithout(items: map<Spec.Key, Element>, nodes: seq<Element>, i: nat)
    requires Indexed(items, Elements(nodes)) && Distinct(nodes) && i < |nodes|
    ensures Elements(Spec.RemoveAt(nodes, i)) == Elements(nodes) - {nodes[i]}
    ensures Indexed(items - {nodes[i].key}, Elements(Spec.RemoveAt(nodes, i)))
  {
    DistinctWithout(nodes, i);
    assert nodes[i] in Elements(nodes);
    assert Elements(Spec.RemoveAt(nodes, i)) == Elements(nodes) - {nodes[i]};
  }

  lemma ElementsMoved(nodes: seq<Element>, i: nat)
    requires Distinct(nodes) && i < |nodes|
    ensures Elements([nodes[i]] + Spec.RemoveAt(nodes, i)) == Elements(nodes)
  {
    DistinctWithout(nodes, i);
  }

  lemma {:induction false} ElementsSize(items: map<Spec.Key, Element>, elements: set<Element>)
    requires Indexed(items, elements)
    ensures |items| == |elements|
  {
    if elements == {} {
      assert items == map[];
    } else {
      var n :| n in elements;
      var fewer := items - {n.key};
      assert Indexed(fewer, elements - {n});
      ElementsSize(fewer, elements - {n});
      assert items.Keys == fewer.Keys + {n.key};
    }
  }

  lemma {:induction false} DistinctSize(nodes: seq<Element>)
    requires Distinct(nodes)
    ensures |Elements(nodes)| == |nodes|
  {
    if nodes != [] {
      DistinctSize(nodes[1..]);
      assert nodes == [nodes[0]] + nodes[1..];
      assert Elements(nodes) == {nodes[0]} + Elements(nodes[1..]);
    }
  }

  /** What the elements carry; it reads no links, so relinking elements does not change it. */
  ghost predicate Carry(nodes: seq<Element>, entries: seq<Spec.Entry>)
    reads nodes`entry
  {
    && |entries| == |nodes|
    && forall i {:trigger nodes[i].entry} {:trigger entries[i]} | 0 <= i < |entries| ::
         nodes[i].entry == entries[i] && nodes[i].key == entries[i].key
  }

  lemma CarryWithout(nodes: seq<Element>, entries: seq<Spec.Entry>, i: nat)
    requires Carry(nodes, entries) && i < |nodes|
    ensures Carry(Spec.RemoveAt(nodes, i), Spec.RemoveAt(entries, i))
    ensures Carry([nodes[i]] + Spec.RemoveAt(nodes, i), [entries[i]] + Spec.RemoveAt(entries, i))
  {
  }

  class Cache {
    var limits: Spec.Limits
    var items: map<Spec.Key, Element>
    const lru: LinkedList
    /** What the elements carry, from front to back. */
    ghost var entries: seq<Spec.Entry>

    /** The map and the list hold the same elements. */
    ghost predicate Agree()
      reads this, lru, lru.nodes
    {
      && lru.Valid()
      && Indexed(items, Elements(lru.nodes))
      && Carry(lru.nodes, entries)
    }

    ghost predicate Valid()
      reads this, lru, lru.nodes
    {
      Agree() && |entries| <= limits.maxEntries && limits == Spec.WithDefaults(limits)
    }

    ghost function Abs(): Spec.State
      reads this
    {
      Spec.State(limits, entries)
    }

    /** Keys are unique in a valid cache, because the map has one element per key. */
    lemma ValidImpliesInv()
      requires Valid()
      ensures Spec.Inv(Abs())
    {
      forall i, j | 0 <= i < j < |entries| ensures entries[i].key != entries[j].key {
        DistinctAt(lru.nodes, i);
        assert lru.nodes[i] in Elements(lru.nodes) && lru.nodes[j] in Elements(lru.nodes);
      }
    }

    /** The map leads to the element that a search of the sequence would find. */
    lemma Lookup(key: Spec.Key)
      requires Agree()
      ensures key in items ==> Spec.Holds(entries, key) && lru.nodes[Spec.Find(entries, key)] == items[key]
      ensures key !in items ==> Spec.Find(entries, key) == |lru.nodes|
    {
      var i := Spec.Find(entries, key);
      if i < |entries| { assert lru.nodes[i] in Elements(lru.nodes); }
      if key in items {
        assert items[key] in lru.nodes;
        var j :| 0 <= j < |lru.nodes| && lru.nodes[j] == items[key];
        assert entries[j].key == key;
      }
    }

    constructor (opts: Spec.Limits)
      ensures Valid() && fresh(lru) && Abs() == Spec.Fresh(opts)
    {
      limits := Spec.WithDefaults(opts);
      items := map[];
      lru := new LinkedList();
      entries := [];
    }

    method Remove(elem: Element?, ghost i: nat)
      requires Agree() && i <= |lru.nodes| && (if i < |lru.nodes| then lru.nodes[i] == elem else elem == null)
      modifies this`items, this`entries, lru, lru.nodes`prev, lru.nodes`next
      ensures Agree()
      ensures lru.nodes == Spec.RemoveAt(old(lru.nodes), i)
      ensures entries == Spec.RemoveAt(old(entries), i)
      ensures Elements(lru.nodes) <= Elements(old(lru.nodes))
    {
      if elem == null { return; }
      RemoveElement(elem, i);
    }

    method RemoveElement(elem: Element, ghost i: nat)
      requires Agree() && i < |lru.nodes| && lru.nodes[i] == elem
      modifies this`items, this`entries, lru, lru.nodes`prev, lru.nodes`next
      ensures Agree()
      ensures lru.nodes == Spec.RemoveAt(old(lru.nodes), i)
      ensures entries == Spec.RemoveAt(old(entries), i)
      ensures Elements(lru.nodes) <= Elements(old(lru.nodes))
    {
      IndexedWithout(items, lru.nodes, i);
      CarryWithout(lru.nodes, entries, i);
      items := items - {elem.key};
      lru.Remove(elem, i);
      entries := Spec.RemoveAt(entries, i);
    }

    lemma Sizes()
      requires Agree()
      ensures |items| == |entries|
    {
      ElementsSize(items, Elements(lru.nodes));
      DistinctSize(lru.nodes);
    }

    method EvictOldest()
      requires Agree() && entries != []
      modifies this`items, this`entries, lru, lru.nodes`prev, lru.nodes`next
      ensures Agree() && |items| == |entries|
      ensures lru.nodes == old(lru.nodes)[..|old(lru.nodes)| - 1]
      ensures entries == old(entries)[..|old(entries)| - 1]
    {
      Remove(lru.back, |lru.nodes| - 1);
      Sizes();
    }

    /** Evicts from the back until the limit holds; it ends because the map and the list agree. */
    method EvictExcess()
      requires Agree() && limits.maxEntries >= 0
      modifies this`items, this`entries, lru, lru.nodes`prev, lru.nodes`next
      ensures Agree()
      ensures lru.nodes <= old(lru.nodes)
      ensures entries == Spec.Take(old(entries), limits.maxEntries)
    {
      ghost var all, nodes := entries, lru.nodes;
      Sizes();
      while |items| > limits.maxEntries
        invariant Agree() && |items| == |entries| <= |all|
        invariant entries == all[..|entries|] && lru.nodes == nodes[..|entries|]
        invariant |entries| == |all| || |entries| >= limits.maxEntries
        decreases |items|
      {
        EvictOldest();
      }
    }

    method MoveToFront(elem: Element, ghost i: nat)
      requires Agree() && i < |lru.nodes| && lru.nodes[i] == elem
      modifies this`entries, lru, lru.nodes`prev, lru.nodes`next
      ensures Agree()
      ensures entries == [old(entries)[i]] + Spec.RemoveAt(old(entries), i)
      ensures Elements(lru.nodes) == Elements(old(lru.nodes))
    {
      ElementsMoved(lru.nodes, i);
      CarryWithout(lru.nodes, entries, i);
      lru.MoveToFront(elem, i);
      entries := [entries[i]] + Spec.RemoveAt(entries, i);
    }

    method Get(key: Spec.Key, req: Option<Spec.Rewrite>, unpacks: bool, now: int) returns (reply: Option<Msg>)
      requires Valid()
      modifies this`items, this`entries, lru, lru.nodes`prev, lru.nodes`next
      ensures Valid()
      ensures Abs() == Spec.Get(old(Abs()), key, unpacks, now)
      ensures reply == Spec.Reply(old(Abs()), key, req, unpacks, now)
      ensures Elements(lru.nodes) <= Elements(old(lru.nodes))
    {
      ghost var i := Spec.Find(entries, key);
      Lookup(key);
      if key !in items { return None; }
      var elem := items[key];
      if elem.entry.expires <= now || !unpacks {
        Remove(elem, i);
        return None;
      }
      var msg := Unpacked(elem.entry, req, now);
      MoveToFront(elem, i);
      return Some(msg);
    }

    method Put(key: Spec.Key, msg: Msg, packs: bool, now: int)
      requires Valid()
      modifies this`items, this`entries, lru, lru.nodes
      ensures Valid()
      ensures Abs() == Spec.Put(old(Abs()), key, msg, packs, now)
      ensures if Cacheable(msg) && packs then Spec.InFront(Abs(), key, msg, now) else Abs() == old(Abs())
      ensures fresh(Elements(lru.nodes) - Elements(old(lru.nodes)))
    {
      ValidImpliesInv();
      Spec.PutIsStored(Abs(), key, msg, packs, now);
      Insert(key, msg, packs, now);
    }

    method Insert(key: Spec.Key, msg: Msg, packs: bool, now: int)
      requires Valid()
      modifies this`items, this`entries, lru, lru.nodes
      ensures Valid()
      ensures Abs() == Spec.Put(old(Abs()), key, msg, packs, now)
      ensures fresh(Elements(lru.nodes) - Elements(old(lru.nodes)))
    {
      if limits.maxEntries > 0 {
        var ttl := TTLFor(limits, msg);
        if ttl > 0 && packs { Store(Spec.Entry(key, msg, now + ttl)); }
      }
    }

    method Store(entry: Spec.Entry)
      requires Valid()
      modifies this`items, this`entries, lru, lru.nodes
      ensures Valid()
      ensures entries == Spec.Take([entry] + Spec.Without(old(entries), entry.key), limits.maxEntries)
      ensures fresh(Elements(lru.nodes) - Elements(old(lru.nodes)))
    {
      ghost var i := Spec.Find(entries, entry.key);
      Lookup(entry.key);
      if entry.key in items {
        Refresh(items[entry.key], i, entry);
        assert |entries| == |old(entries)|;
      } else {
        assert Spec.RemoveAt(entries, i) == entries;
        Admit(entry);
      }
    }

    /** Overwrites a present entry and moves it to the front. */
    method Refresh(elem: Element, ghost i: nat, entry: Spec.Entry)
      requires Agree() && i < |lru.nodes| && lru.nodes[i] == elem && elem.key == entry.key
      modifies this`entries, lru, lru.nodes
      ensures Agree()
      ensures entries == [entry] + Spec.RemoveAt(old(entries), i)
      ensures Elements(lru.nodes) == Elements(old(lru.nodes))
    {
      DistinctAt(lru.nodes, i);
      elem.entry := entry;
      entries := entries[i := entry];
      MoveToFront(elem, i);
      assert Spec.RemoveAt(old(entries)[i := entry], i) == Spec.RemoveAt(old(entries), i);
    }

    /** Inserts a new entry at the front and evicts what then exceeds the limit. */
    method Admit(entry: Spec.Entry)
      requires Agree() && entry.key !in items && limits.maxEntries >= 0
      modifies this`items, this`entries, lru, lru.nodes
      ensures Agree()
      ensures entries == Spec.Take([entry] + old(entries), limits.maxEntries)
      ensures fresh(Elements(lru.nodes) - Elements(old(lru.nodes)))
    {
      var elem := new Element(entry);
      lru.PushFront(elem);
      items := items[entry.key := elem];
      entries := [entry] + entries;
      assert Elements(lru.nodes) == Elements(old(lru.nodes)) + {elem};
      EvictExcess();
    }

    method Flush()
      requires Valid()
      modifies this`items, this`entries, lru
      ensures Valid() && Abs() == Spec.Flush(old(Abs())) && lru.nodes == []
    {
      items := map[];
      lru.Clear();
      entries := [];
    }

    method Reconfigure(opts: Spec.Limits)
      requires Valid()
      modifies this, lru, lru.nodes`prev, lru.nodes`next
      ensures Valid() && Abs() == Spec.Reconfigure(old(Abs()), opts)
      ensures Elements(lru.nodes) <= Elements(old(lru.nodes))
    {
      limits := Spec.WithDefaults(opts);
      EvictExcess();
    }

    method Len() returns (n: nat)
      requires Valid()
      ensures n == |Abs().entries|
    {
      Sizes();
      n := |items|;
    }
  }
}

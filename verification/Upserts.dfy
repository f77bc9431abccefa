/**
 * Rows decoded from the kv table and written over a table of their own (the `pending` slices of
 * internal/store/sqlite.go).
 */
module Upserts {
  /** The rows decoded for a table, each with the name it goes under: its own, or else its key's. */
  type Pending<K, V> = map<string, (K, V)>

  ghost function Names<K, V>(pending: Pending<K, V>): set<K> {
    set key | key in pending :: pending[key].0
  }

  /** The pending rows are written over the table, in some order: of those that share a name one is kept. */
  ghost predicate WrittenOver<K, V>(table: map<K, V>, pending: Pending<K, V>, filled: map<K, V>) {
    && filled.Keys == table.Keys + Names(pending)
    && (forall k | k in table && k !in Names(pending) :: filled[k] == table[k])
    && (forall k | k in Names(pending) :: exists key | key in pending :: pending[key] == (k, filled[k]))
  }

  /** Rows that share a name are equal. */
  ghost predicate Agreeing<K(!new), V(!new)>(pending: Pending<K, V>) {
    forall a, b | a in pending && b in pending && pending[a].0 == pending[b].0 :: pending[a] == pending[b]
  }

  /** One row that goes under the name. */
  ghost function Named<K, V>(pending: Pending<K, V>, k: K): (key: string)
    requires k in Names(pending)
    ensures key in pending && pending[key].0 == k
  {
    var key :| key in pending && pending[key].0 == k;
    key
  }

  /** One way of writing them; the only one when they agree. */
  ghost function Overwritten<K, V>(table: map<K, V>, pending: Pending<K, V>): map<K, V> {
    map k | k in table.Keys + Names(pending) :: if k in Names(pending) then pending[Named(pending, k)].1 else table[k]
  }

  lemma OverwrittenIsWritten<K, V>(table: map<K, V>, pending: Pending<K, V>)
    ensures WrittenOver(table, pending, Overwritten(table, pending))
  {
    var filled := Overwritten(table, pending);
    forall k | k in Names(pending) ensures exists key | key in pending :: pending[key] == (k, filled[k]) {
      assert pending[Named(pending, k)] == (k, filled[k]);
    }
  }

  lemma OverwrittenTwice<K, V>(table: map<K, V>, pending: Pending<K, V>)
    ensures Overwritten(Overwritten(table, pending), pending) == Overwritten(table, pending)
  {
    var once := Overwritten(table, pending);
    assert once.Keys + Names(pending) == once.Keys;
  }

  lemma OneMoreWritten<K, V>(table: map<K, V>, pending: Pending<K, V>, filled: map<K, V>, key: string, row: (K, V))
    requires WrittenOver(table, pending, filled) && key !in pending
    ensures WrittenOver(table, pending[key := row], filled[row.0 := row.1])
  {
    var more, after := pending[key := row], filled[row.0 := row.1];
    assert Names(more) == Names(pending) + {row.0} by {
      forall j | j in pending ensures pending[j].0 in Names(more) { assert more[j] == pending[j]; }
      assert more[key] == row;
    }
    forall k | k in Names(more) ensures exists j | j in more :: more[j] == (k, after[k]) {
      if k == row.0 {
        assert more[key] == (k, after[k]);
      } else {
        var j :| j in pending && pending[j] == (k, filled[k]);
        assert more[j] == (k, after[k]);
      }
    }
  }

  /** Writing twice is one way of writing once, and when the rows agree it changes nothing more. */
  lemma WrittenTwice<K(!new), V(!new)>(table: map<K, V>, pending: Pending<K, V>, once: map<K, V>, twice: map<K, V>)
    requires WrittenOver(table, pending, once) && WrittenOver(once, pending, twice)
    ensures WrittenOver(table, pending, twice)
    ensures Agreeing(pending) ==> twice == once
  {
    if Agreeing(pending) {
      forall k | k in Names(pending) ensures twice[k] == once[k] {
        var a :| a in pending && pending[a] == (k, once[k]);
        var b :| b in pending && pending[b] == (k, twice[k]);
        assert pending[a].0 == pending[b].0;
      }
    }
  }

  lemma WrittenOneWay<K(!new), V(!new)>(table: map<K, V>, pending: Pending<K, V>, filled: map<K, V>)
    requires WrittenOver(table, pending, filled) && Agreeing(pending)
    ensures filled == Overwritten(table, pending)
  {
    forall k | k in Names(pending) ensures filled[k] == Overwritten(table, pending)[k] {
      var a :| a in pending && pending[a] == (k, filled[k]);
      assert pending[Named(pending, k)].0 == pending[a].0;
    }
  }

  predicate InTable<K, V(==)>(pending: Pending<K, V>, table: map<K, V>, key: string)
    requires key in pending
  {
    pending[key].0 in table && table[pending[key].0] == pending[key].1
  }

  /** Rows already in the table change nothing. */
  lemma WrittenStays<K, V>(table: map<K, V>, pending: Pending<K, V>, filled: map<K, V>)
    requires WrittenOver(table, pending, filled)
    requires forall key | key in pending :: InTable(pending, table, key)
    ensures filled == table
  {
    forall k | k in Names(pending) ensures k in table && filled[k] == table[k] {
      var key :| key in pending && pending[key] == (k, filled[k]);
      assert InTable(pending, table, key);
    }
    assert filled.Keys == table.Keys;
  }

  /** Rows that share a name and differ can be written in two orders. */
  lemma WrittenTwoWays<K, V>(table: map<K, V>, pending: Pending<K, V>, a: string, b: string)
    returns (once: map<K, V>, twice: map<K, V>)
    requires a in pending && b in pending && pending[a].0 == pending[b].0 && pending[a] != pending[b]
    ensures WrittenOver(table, pending, once) && WrittenOver(once, pending, twice) && once != twice
  {
    var k, any := pending[a].0, Overwritten(table, pending);
    once, twice := any[k := pending[a].1], any[k := pending[b].1];
    OverwrittenIsWritten(table, pending);
    assert once[k] != twice[k];
    assert once.Keys == once.Keys + Names(pending);
  }

  /** Writes the pending rows of a table, in some order. */
  method UpsertAll<K(==), V(==)>(table: map<K, V>, pending: Pending<K, V>) returns (filled: map<K, V>)
    ensures WrittenOver(table, pending, filled)
  {
    filled := table;
    var rest := pending.Keys;
    while rest != {}
      invariant rest <= pending.Keys && WrittenOver(table, pending - rest, filled)
    {
      var key :| key in rest;
      OneMoreWritten(table, pending - rest, filled, key, pending[key]);
      assert (pending - rest)[key := pending[key]] == pending - (rest - {key});
      filled := filled[pending[key].0 := pending[key].1];
      rest := rest - {key};
    }
    assert pending - rest == pending;
  }
}

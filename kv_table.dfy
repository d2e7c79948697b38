/**
 * The backing table `_KvStore`: rows of (name, key, value) with the pair
 * (name, key) unique across the whole table.
 *
 * The table is a finite map from that pair to the stored value, so the
 * uniqueness constraint holds by construction; `Rows` gives back the row
 * view of the table and `UniqueTogether` states the constraint on it.
 * The value is kept as it is given: the row never interprets it.
 */
module KvTable {

  type Name = string
  type Key = string

  /** The (name, key) pair the table is unique on. */
  datatype Slot = Slot(name: Name, key: Key)

  /** One row of the table. */
  datatype Row<V> = Row(name: Name, key: Key, value: V)

  /** The whole table, shared by every handle. */
  type Table<V> = map<Slot, V>

  datatype Option<T> = None | Some(value: T)

  /** The rows the table holds. */
  ghost function Rows<V>(t: Table<V>): set<Row<V>>
  {
    set s | s in t :: Row(s.name, s.key, t[s])
  }

  /** What a handle bound to `n` can see: its keys and their values. */
  function View<V>(t: Table<V>, n: Name): (m: map<Key, V>)
    ensures forall k :: k in m <==> Slot(n, k) in t
    ensures forall k :: k in m ==> m[k] == t[Slot(n, k)]
  {
    var m := map s | s in t && s.name == n :: s.key := t[s];
    assert forall k :: Slot(n, k) in t ==> k in m by {
      forall k | Slot(n, k) in t ensures k in m {
        var s := Slot(n, k);
        assert s in t && s.name == n;
      }
    }
    m
  }

  /** The table without any row of name `n` (the filtered delete of `flush`). */
  function DropName<V>(t: Table<V>, n: Name): (r: Table<V>)
    ensures forall s :: s in r <==> s in t && s.name != n
    ensures forall s :: s in r ==> r[s] == t[s]
  {
    map s | s in t && s.name != n :: t[s]
  }

  /** unique_together = (name, key): two rows that agree on name and key are the same row. */
  lemma UniqueTogether<V>(t: Table<V>, r1: Row<V>, r2: Row<V>)
    requires r1 in Rows(t) && r2 in Rows(t)
    requires r1.name == r2.name && r1.key == r2.key
    ensures r1 == r2
  {
    var s1 :| s1 in t && r1 == Row(s1.name, s1.key, t[s1]);
    var s2 :| s2 in t && r2 == Row(s2.name, s2.key, t[s2]);
    assert s1 == s2;
  }

  /** Every slot of the table is exactly one row, holding the slot's value. */
  lemma RowOfSlot<V>(t: Table<V>, n: Name, k: Key, v: V)
    ensures Row(n, k, v) in Rows(t) <==> Slot(n, k) in t && t[Slot(n, k)] == v
  {
    if Row(n, k, v) in Rows(t) {
      var s :| s in t && Row(n, k, v) == Row(s.name, s.key, t[s]);
      assert s == Slot(n, k);
    }
  }

  /**
   * Two tables that agree on every slot of name `n` look the same to a
   * handle bound to `n`.
   */
  lemma ViewsAgree<V>(t: Table<V>, t': Table<V>, n: Name)
    requires forall s: Slot :: s.name == n ==> (s in t <==> s in t')
    requires forall s: Slot :: s.name == n && s in t ==> t[s] == t'[s]
    ensures View(t, n) == View(t', n)
  {
    var a, b := View(t, n), View(t', n);
    assert a.Keys == b.Keys by {
      forall k ensures k in a <==> k in b {
        assert Slot(n, k).name == n;
      }
    }
    forall k | k in a ensures a[k] == b[k] {
      assert Slot(n, k).name == n;
    }
  }
}

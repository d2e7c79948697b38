/**
 * The `KeyVal` handle as an object: a mutable name (removed by
 * `disconnect`) and a reference to the shared table, which every
 * operation reads or changes in place.
 *
 * Each method makes the calls of the Python class `KeyVal` (`exists`, `get`
 * and `delete` go through `_get`, `pop` is `get` followed by `delete`,
 * the `*_default` variants catch KeyError) and is proved to leave the
 * reply and the table that `KeyValSpec` prescribes.
 */
module KeyValHandle {
  import opened KvTable
  import opened KeyValSpec
  import opened KeyValSession

  /** The `_KvStore` table that all handles share. */
  class Store<V> {
    var rows: Table<V>

    constructor ()
      ensures rows == map[]
    {
      rows := map[];
    }
  }

  class KeyVal<V> {
    var name: Handle
    const store: Store<V>

    /** `KeyVal(name)`: connect to `name`. */
    constructor (store: Store<V>, name: Name)
      ensures this.name == Connect(name) && this.store == store
    {
      this.name := Some(name);
      this.store := store;
    }

    /** `KeyVal.connect(name)`: an alias of the constructor. */
    static method ConnectTo(store: Store<V>, name: Name) returns (kv: KeyVal<V>)
      ensures fresh(kv) && kv.name == Some(name) && kv.store == store
      ensures unchanged(store)
    {
      kv := new KeyVal(store, name);
    }

    /** `flush_all`: empty the table; a static operation, so no name is needed. */
    static method FlushAll(store: Store<V>)
      modifies store
      ensures store.rows == FlushAllOp(old(store.rows))
      ensures forall n :: View(store.rows, n) == map[]
    {
      store.rows := map[];
    }

    /** `_get_name`: the bound name, or NameError once disconnected. */
    method GetName() returns (r: Result<Name>)
      ensures r == NameOf(name)
      ensures name.Some? ==> r == Ok(name.value)
      ensures name.None? ==> r == Err(NameError)
    {
      match name
      case None => r := Err(NameError);
      case Some(n) => r := Ok(n);
    }

    /** `_get`: the row of (name, key). */
    method Find(key: Key) returns (r: Result<Row<V>>)
      ensures r == FindRow(store.rows, name, key)
      ensures r.Ok? ==> r.value in Rows(store.rows) && r.value.key == key && name == Some(r.value.name)
    {
      var n := GetName();
      if n.Err? {
        return Err(n.error);
      }
      var slot := Slot(n.value, key);
      if slot in store.rows {
        r := Ok(Row(n.value, key, store.rows[slot]));
      } else {
        r := Err(KeyError(n.value, key));
      }
    }

    /** `set`: get-or-create the row, overwriting the value of a row that exists. */
    method Set(key: Key, value: V) returns (r: Result<bool>)
      modifies store
      ensures Step(r, store.rows) == SetOp(old(store.rows), name, key, value)
      ensures name.None? ==> r == Err(NameError) && unchanged(store)
      ensures name.Some? ==> r == Ok(Slot(name.value, key) !in old(store.rows))
      ensures name.Some? ==> store.rows == old(store.rows)[Slot(name.value, key) := value]
    {
      var n := GetName();
      if n.Err? {
        return Err(n.error);
      }
      var slot := Slot(n.value, key);
      var created := slot !in store.rows;
      if created {
        store.rows := store.rows[slot := value];
      } else {
        // the existing row is silently overwritten
        store.rows := store.rows[slot := value];
      }
      r := Ok(created);
    }

    /** `exists`: whether the row is there; NameError is not caught. */
    method Exists(key: Key) returns (r: Result<bool>)
      ensures r == ExistsOp(store.rows, name, key)
      ensures name.None? ==> r == Err(NameError)
      ensures name.Some? ==> r == Ok(key in View(store.rows, name.value))
    {
      var row := Find(key);
      if row.Ok? {
        r := Ok(true);
      } else if row.error.KeyError? {
        r := Ok(false);
      } else {
        r := Err(row.error);
      }
    }

    /** `get`: the stored value. */
    method Get(key: Key) returns (r: Result<V>)
      ensures r == GetOp(store.rows, name, key)
      ensures name.None? ==> r == Err(NameError)
      ensures name.Some? && key !in View(store.rows, name.value) ==> r == Err(KeyError(name.value, key))
      ensures name.Some? && key in View(store.rows, name.value) ==> r == Ok(View(store.rows, name.value)[key])
    {
      var row := Find(key);
      if row.Err? {
        return Err(row.error);
      }
      r := Ok(row.value.value);
    }

    /** `get_default`: the stored value, or `defaultValue` for a missing row. */
    method GetDefault(key: Key, defaultValue: V) returns (r: Result<V>)
      ensures r == GetDefaultOp(store.rows, name, key, defaultValue)
      ensures name.None? ==> r == Err(NameError)
      ensures name.Some? && key !in View(store.rows, name.value) ==> r == Ok(defaultValue)
      ensures name.Some? && key in View(store.rows, name.value) ==> r == Ok(View(store.rows, name.value)[key])
    {
      var g := Get(key);
      if g.Err? && g.error.KeyError? {
        r := Ok(defaultValue);
      } else {
        r := g;
      }
    }

    /** `delete`: remove the row; a missing row is KeyError unless `ignoreKeyError`. */
    method Delete(key: Key, ignoreKeyError: bool) returns (r: Result<bool>)
      modifies store
      ensures Step(r, store.rows) == DeleteOp(old(store.rows), name, key, ignoreKeyError)
      ensures r != Ok(true) ==> unchanged(store)
      ensures r == Ok(true) ==> name.Some? && store.rows == old(store.rows) - {Slot(name.value, key)}
    {
      var row := Find(key);
      if row.Err? {
        if row.error.KeyError? && ignoreKeyError {
          return Ok(false);
        }
        return Err(row.error);
      }
      store.rows := store.rows - {Slot(row.value.name, row.value.key)};
      r := Ok(true);
    }

    /** `pop`: `get`, then `delete` of the same key. */
    method Pop(key: Key) returns (r: Result<V>)
      modifies store
      ensures Step(r, store.rows) == PopOp(old(store.rows), name, key)
      ensures r.Err? ==> unchanged(store)
      ensures r.Ok? ==> name.Some? && r.value == old(store.rows)[Slot(name.value, key)]
      ensures r.Ok? ==> store.rows == old(store.rows) - {Slot(name.value, key)}
    {
      var g := Get(key);
      if g.Err? {
        return Err(g.error);
      }
      var deleted := Delete(key, false);
      assert deleted == Ok(true);  // the row `get` just found is there to delete
      r := g;
    }

    /** `pop_default`: `pop`, with `defaultValue` in place of KeyError. */
    method PopDefault(key: Key, defaultValue: V) returns (r: Result<V>)
      modifies store
      ensures Step(r, store.rows) == PopDefaultOp(old(store.rows), name, key, defaultValue)
    {
      var p := Pop(key);
      if p.Err? && p.error.KeyError? {
        r := Ok(defaultValue);
      } else {
        r := p;
      }
    }

    /** `flush`: remove every row of this handle's name. */
    method Flush() returns (r: Result<()>)
      modifies store
      ensures Step(r, store.rows) == FlushOp(old(store.rows), name)
      ensures name.Some? ==> View(store.rows, name.value) == map[]
      ensures forall m :: name != Some(m) ==> View(store.rows, m) == View(old(store.rows), m)
    {
      var n := GetName();
      if n.Err? {
        return Err(n.error);
      }
      store.rows := DropName(store.rows, n.value);
      r := Ok(());
      forall m | m != n.value ensures View(store.rows, m) == View(old(store.rows), m) {
        ViewsAgree(store.rows, old(store.rows), m);
      }
    }

    /** `disconnect`: delete the name; the rows stay. */
    method Disconnect() returns (r: Result<()>)
      modifies this
      ensures (r, name) == DisconnectOp(old(name))
      ensures name.None?
    {
      if name.None? {
        r := Err(AttributeError);
      } else {
        r := Ok(());
      }
      name := None;
    }

    /** Any one call of a session, dispatched to the method that performs it. */
    method Perform(c: Call<V>) returns (r: Result<Answer<V>>)
      modifies this, store
      ensures (r, State(store.rows, name)) == Apply(State(old(store.rows), old(name)), c)
    {
      match c
      case SetCall(k, v) =>
        var x := Set(k, v);
        r := AsFlag(x);
      case ExistsCall(k) =>
        var x := Exists(k);
        r := AsFlag(x);
      case GetCall(k) =>
        var x := Get(k);
        r := AsVal(x);
      case GetDefaultCall(k, d) =>
        var x := GetDefault(k, d);
        r := AsVal(x);
      case PopCall(k) =>
        var x := Pop(k);
        r := AsVal(x);
      case PopDefaultCall(k, d) =>
        var x := PopDefault(k, d);
        r := AsVal(x);
      case DeleteCall(k, ignore) =>
        var x := Delete(k, ignore);
        r := AsFlag(x);
      case FlushCall =>
        var x := Flush();
        r := AsNothing(x);
      case FlushAllCall =>
        FlushAll(store);
        r := Ok(Nothing);
      case DisconnectCall =>
        var x := Disconnect();
        r := AsNothing(x);
    }
  }

  /**
   * Two handles on one store: writes through `kv1` create and then
   * overwrite, and stay invisible to `kv2` bound to another name.
   */
  method TwoNames<V>(store: Store<V>, k: Key, v1: V, v2: V)
    returns (first: Result<bool>, again: Result<bool>, other: Result<V>, mine: Result<V>)
    modifies store
    ensures first == Ok(Slot("kv1", k) !in old(store.rows))
    ensures again == Ok(false)
    ensures Slot("kv2", k) !in old(store.rows) ==> other == Err(KeyError("kv2", k))
    ensures mine == Ok(v2)
  {
    var kv1 := new KeyVal(store, "kv1");
    var kv2 := KeyVal.ConnectTo(store, "kv2");
    first := kv1.Set(k, v1);
    again := kv1.Set(k, v2);
    other := kv2.Get(k);
    mine := kv1.Get(k);
  }

  /**
   * A disconnected handle fails with NameError and leaves the rows, which a
   * fresh handle bound to the same name still sees.
   */
  method DisconnectThenReconnect<V>(store: Store<V>, n: Name, k: Key, v: V)
    returns (failed: Result<V>, seen: Result<V>)
    modifies store
    ensures failed == Err(NameError)
    ensures seen == Ok(v)
  {
    var kv := new KeyVal(store, n);
    var _ := kv.Set(k, v);
    var _ := kv.Disconnect();
    failed := kv.Get(k);
    var _ := kv.Pop(k);
    var _ := kv.Flush();
    var again := new KeyVal(store, n);
    seen := again.Get(k);
  }

  /**
   * A whole session on a real handle: performing the calls one after the
   * other gives the replies, table and handle state that `Run` gives, so
   * the session lemmas hold of `KeyVal` objects.
   */
  method PerformAll<V>(kv: KeyVal<V>, calls: seq<Call<V>>) returns (replies: seq<Result<Answer<V>>>)
    modifies kv, kv.store
    ensures (replies, State(kv.store.rows, kv.name)) == Run(State(old(kv.store.rows), old(kv.name)), calls)
  {
    ghost var s0 := State(kv.store.rows, kv.name);
    replies := [];
    var i := 0;
    while i < |calls|
      invariant 0 <= i <= |calls|
      invariant (replies, State(kv.store.rows, kv.name)) == Run(s0, calls[..i])
    {
      var r := kv.Perform(calls[i]);
      RunSnoc(s0, calls[..i], calls[i]);
      assert calls[..i + 1] == calls[..i] + [calls[i]];
      replies := replies + [r];
      i := i + 1;
    }
    assert calls[..i] == calls;
  }
}

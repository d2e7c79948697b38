/**
 * Properties of the handle operations: create-or-overwrite, absence,
 * pop and delete, flush scope, namespace isolation and the disconnected
 * state, first for single operations and then for whole sessions.
 */
module KeyValLaws {
  import opened KvTable
  import opened KeyValSpec
  import opened KeyValSession

  /** `set` reports a new row exactly when the handle saw no such key. */
  lemma SetCreatedIff<V>(t: Table<V>, n: Name, k: Key, v: V)
    ensures SetOp(t, Connect(n), k, v).result == Ok(k !in View(t, n))
  {
  }

  /** Last write wins: the stored value is the last one set, and a second `set` overwrites. */
  lemma SetLastWriteWins<V>(t: Table<V>, n: Name, k: Key, v1: V, v2: V)
    ensures GetOp(SetOp(t, Connect(n), k, v1).table, Connect(n), k) == Ok(v1)
    ensures SetOp(SetOp(t, Connect(n), k, v1).table, Connect(n), k, v2).result == Ok(false)
    ensures GetOp(SetOp(SetOp(t, Connect(n), k, v1).table, Connect(n), k, v2).table, Connect(n), k) == Ok(v2)
  {
  }

  /** `set` touches the one row of (name, key), and no other. */
  lemma SetFrame<V>(t: Table<V>, n: Name, k: Key, v: V)
    ensures SetOp(t, Connect(n), k, v).table - {Slot(n, k)} == t - {Slot(n, k)}
  {
  }

  /** After `set` there is exactly one row for (name, key), holding the value set. */
  lemma SetKeepsOneRow<V>(t: Table<V>, n: Name, k: Key, v: V, r: Row<V>)
    requires r.name == n && r.key == k
    ensures r in Rows(SetOp(t, Connect(n), k, v).table) <==> r == Row(n, k, v)
  {
    RowOfSlot(SetOp(t, Connect(n), k, v).table, n, k, r.value);
  }

  /** A missing key: `get` is KeyError, `get_default` gives the default, `exists` is false. */
  lemma Absence<V>(t: Table<V>, n: Name, k: Key, d: V)
    requires k !in View(t, n)
    ensures GetOp(t, Connect(n), k) == Err(KeyError(n, k))
    ensures GetDefaultOp(t, Connect(n), k, d) == Ok(d)
    ensures ExistsOp(t, Connect(n), k) == Ok(false)
    ensures Apply(State(t, Connect(n)), GetDefaultCall(k, d)).1.table == t
  {
  }

  /** A present key: `get` and `get_default` give the stored value, `exists` is true. */
  lemma Presence<V>(t: Table<V>, n: Name, k: Key, d: V)
    requires k in View(t, n)
    ensures GetOp(t, Connect(n), k) == Ok(View(t, n)[k])
    ensures GetDefaultOp(t, Connect(n), k, d) == Ok(View(t, n)[k])
    ensures ExistsOp(t, Connect(n), k) == Ok(true)
  {
  }

  /** `pop` returns the value and removes only its row; a second `pop` is KeyError. */
  lemma PopOnce<V>(t: Table<V>, n: Name, k: Key)
    requires k in View(t, n)
    ensures PopOp(t, Connect(n), k).result == Ok(View(t, n)[k])
    ensures PopOp(t, Connect(n), k).table == t - {Slot(n, k)}
    ensures ExistsOp(PopOp(t, Connect(n), k).table, Connect(n), k) == Ok(false)
    ensures PopOp(PopOp(t, Connect(n), k).table, Connect(n), k) == Step(Err(KeyError(n, k)), t - {Slot(n, k)})
  {
  }

  /** `pop_default` is `pop` on a present key, and the default with no change on a missing one. */
  lemma PopDefaultLaws<V>(t: Table<V>, n: Name, k: Key, d: V)
    ensures k in View(t, n) ==> PopDefaultOp(t, Connect(n), k, d) == PopOp(t, Connect(n), k)
    ensures k !in View(t, n) ==> PopDefaultOp(t, Connect(n), k, d) == Step(Ok(d), t)
  {
  }

  /** `delete`: true on a present key; on a missing one KeyError, or false with `ignoreKeyError`. */
  lemma DeleteLaws<V>(t: Table<V>, n: Name, k: Key, ignoreKeyError: bool)
    ensures k in View(t, n) ==>
      DeleteOp(t, Connect(n), k, ignoreKeyError) == Step(Ok(true), t - {Slot(n, k)})
    ensures k in View(t, n) ==>
      ExistsOp(DeleteOp(t, Connect(n), k, ignoreKeyError).table, Connect(n), k) == Ok(false)
    ensures k !in View(t, n) && !ignoreKeyError ==>
      DeleteOp(t, Connect(n), k, ignoreKeyError) == Step(Err(KeyError(n, k)), t)
    ensures k !in View(t, n) && ignoreKeyError ==>
      DeleteOp(t, Connect(n), k, ignoreKeyError) == Step(Ok(false), t)
  {
  }

  /** `flush` empties the handle's name and leaves every other name as it was. */
  lemma FlushScope<V>(t: Table<V>, n: Name)
    ensures FlushOp(t, Connect(n)).result == Ok(())
    ensures View(FlushOp(t, Connect(n)).table, n) == map[]
    ensures forall m :: m != n ==> View(FlushOp(t, Connect(n)).table, m) == View(t, m)
  {
    forall m | m != n ensures View(FlushOp(t, Connect(n)).table, m) == View(t, m) {
      ViewsAgree(FlushOp(t, Connect(n)).table, t, m);
    }
  }

  /** `flush_all` empties every name, also when called through a disconnected handle. */
  lemma FlushAllScope<V>(t: Table<V>, h: Handle)
    ensures Apply(State(t, h), FlushAllCall).0 == Ok(Nothing)
    ensures forall n :: View(Apply(State(t, h), FlushAllCall).1.table, n) == map[]
  {
  }

  /**
   * Namespace isolation for one call: a call through a handle not bound to
   * `m` (other than `flush_all`) leaves what a handle bound to `m` sees
   * unchanged, and the calling handle never becomes bound to `m`.
   */
  lemma CallIsolation<V>(s: State<V>, c: Call<V>, m: Name)
    requires s.handle != Some(m)
    requires !c.FlushAllCall?
    ensures View(Apply(s, c).1.table, m) == View(s.table, m)
    ensures Apply(s, c).1.handle == s.handle || Apply(s, c).1.handle == None
  {
    var t, t' := s.table, Apply(s, c).1.table;
    assert forall q: Slot :: q.name == m ==> (q in t' <==> q in t) && (q in t ==> t'[q] == t[q]) by {
      forall q: Slot | q.name == m ensures (q in t' <==> q in t) && (q in t ==> t'[q] == t[q]) {
        match c
        case FlushCall =>
        case DisconnectCall =>
        case _ =>
      }
    }
    ViewsAgree(t', t, m);
  }

  /**
   * Namespace isolation for a whole session: no sequence of calls through a
   * handle not bound to `m` (without `flush_all`) changes what a handle
   * bound to `m` sees.
   */
  lemma {:induction false} SessionIsolation<V>(s: State<V>, calls: seq<Call<V>>, m: Name)
    requires s.handle != Some(m)
    requires forall i :: 0 <= i < |calls| ==> !calls[i].FlushAllCall?
    ensures View(Run(s, calls).1.table, m) == View(s.table, m)
    decreases |calls|
  {
    if calls != [] {
      CallIsolation(s, calls[0], m);
      var next := Apply(s, calls[0]).1;
      assert forall i :: 0 <= i < |calls[1..]| ==> !calls[1..][i].FlushAllCall? by {
        forall i | 0 <= i < |calls[1..]| ensures !calls[1..][i].FlushAllCall? {
          assert calls[1..][i] == calls[i + 1];
        }
      }
      SessionIsolation(next, calls[1..], m);
    }
  }

  /** On a disconnected handle every per-name call fails and changes nothing. */
  lemma DisconnectedCall<V>(s: State<V>, c: Call<V>)
    requires s.handle.None?
    requires !c.FlushAllCall?
    ensures Apply(s, c) == (Err(if c.DisconnectCall? then AttributeError else NameError), s)
  {
  }

  /**
   * On a disconnected handle a whole session (without `flush_all`) leaves
   * table and handle as they were, and every call's reply is NameError
   * (AttributeError for a repeated `disconnect`).
   */
  lemma {:induction false} DisconnectedSession<V>(s: State<V>, calls: seq<Call<V>>)
    requires s.handle.None?
    requires forall i :: 0 <= i < |calls| ==> !calls[i].FlushAllCall?
    ensures Run(s, calls).1 == s
    ensures forall i :: 0 <= i < |calls| ==>
      Run(s, calls).0[i] == Err(if calls[i].DisconnectCall? then AttributeError else NameError)
    decreases |calls|
  {
    if calls != [] {
      DisconnectedCall(s, calls[0]);
      assert forall i :: 0 <= i < |calls[1..]| ==> !calls[1..][i].FlushAllCall? by {
        forall i | 0 <= i < |calls[1..]| ensures !calls[1..][i].FlushAllCall? {
          assert calls[1..][i] == calls[i + 1];
        }
      }
      DisconnectedSession(s, calls[1..]);
      var replies := Run(s, calls).0;
      assert replies == [Apply(s, calls[0]).0] + Run(s, calls[1..]).0;
      forall i | 0 < i < |calls|
        ensures replies[i] == Err(if calls[i].DisconnectCall? then AttributeError else NameError)
      {
        assert replies[i] == Run(s, calls[1..]).0[i - 1];
        assert calls[i] == calls[1..][i - 1];
      }
    }
  }

  /**
   * Disconnecting keeps the rows: after `disconnect` and any further calls
   * (without `flush_all`) on that handle, a fresh handle bound to the same
   * name gets every value that was stored before.
   */
  lemma ReconnectSeesValues<V>(t: Table<V>, n: Name, calls: seq<Call<V>>, k: Key)
    requires forall i :: 0 <= i < |calls| ==> !calls[i].FlushAllCall?
    requires k in View(t, n)
    ensures Run(State(t, Connect(n)), [DisconnectCall] + calls).1.handle.None?
    ensures GetOp(Run(State(t, Connect(n)), [DisconnectCall] + calls).1.table, Connect(n), k)
         == Ok(View(t, n)[k])
  {
    var s, all := State(t, Connect(n)), [DisconnectCall] + calls;
    assert all != [] && all[0] == DisconnectCall && all[1..] == calls;
    var after := Apply(s, DisconnectCall).1;
    assert after == State(t, None);
    assert Run(s, all).1 == Run(after, calls).1;
    DisconnectedSession(after, calls);
  }
}

/**
 * A sequence of calls issued through one handle, as a client (or a test
 * case) issues them: each call is one operation of `KeyValSpec`, and the
 * table and the handle's state are threaded from one call to the next.
 */
module KeyValSession {
  import opened KvTable
  import opened KeyValSpec

  /** One call on a handle, with its arguments. */
  datatype Call<V> =
    | SetCall(key: Key, value: V)
    | ExistsCall(key: Key)
    | GetCall(key: Key)
    | GetDefaultCall(key: Key, defaultValue: V)
    | PopCall(key: Key)
    | PopDefaultCall(key: Key, defaultValue: V)
    | DeleteCall(key: Key, ignoreKeyError: bool)
    | FlushCall
    | FlushAllCall
    | DisconnectCall

  /** The value a call returns when it succeeds: a flag, a stored value, or None. */
  datatype Answer<V> = Flag(flag: bool) | Val(val: V) | Nothing

  /** The shared table and the state of the handle the calls go through. */
  datatype State<V> = State(table: Table<V>, handle: Handle)

  function AsFlag<V>(r: Result<bool>): Result<Answer<V>>
  {
    match r
    case Ok(b) => Ok(Flag(b))
    case Err(e) => Err(e)
  }

  function AsVal<V>(r: Result<V>): Result<Answer<V>>
  {
    match r
    case Ok(v) => Ok(Val(v))
    case Err(e) => Err(e)
  }

  function AsNothing<V>(r: Result<()>): Result<Answer<V>>
  {
    match r
    case Ok(_) => Ok(Nothing)
    case Err(e) => Err(e)
  }

  /** One call: its reply and the state after it. */
  function Apply<V>(s: State<V>, c: Call<V>): (Result<Answer<V>>, State<V>)
  {
    match c
    case SetCall(k, v) =>
      var o := SetOp(s.table, s.handle, k, v);
      (AsFlag(o.result), State(o.table, s.handle))
    case ExistsCall(k) => (AsFlag(ExistsOp(s.table, s.handle, k)), s)
    case GetCall(k) => (AsVal(GetOp(s.table, s.handle, k)), s)
    case GetDefaultCall(k, d) => (AsVal(GetDefaultOp(s.table, s.handle, k, d)), s)
    case PopCall(k) =>
      var o := PopOp(s.table, s.handle, k);
      (AsVal(o.result), State(o.table, s.handle))
    case PopDefaultCall(k, d) =>
      var o := PopDefaultOp(s.table, s.handle, k, d);
      (AsVal(o.result), State(o.table, s.handle))
    case DeleteCall(k, ignore) =>
      var o := DeleteOp(s.table, s.handle, k, ignore);
      (AsFlag(o.result), State(o.table, s.handle))
    case FlushCall =>
      var o := FlushOp(s.table, s.handle);
      (AsNothing(o.result), State(o.table, s.handle))
    case FlushAllCall => (Ok(Nothing), State(FlushAllOp(s.table), s.handle))
    case DisconnectCall =>
      var o := DisconnectOp(s.handle);
      (AsNothing(o.0), State(s.table, o.1))
  }

  /** A sequence of calls: one reply per call, and the final state. */
  function Run<V>(s: State<V>, calls: seq<Call<V>>): (o: (seq<Result<Answer<V>>>, State<V>))
    ensures |o.0| == |calls|
    ensures calls != [] ==> o.0[0] == Apply(s, calls[0]).0
    decreases |calls|
  {
    if calls == [] then ([], s)
    else
      var first := Apply(s, calls[0]);
      var rest := Run(first.1, calls[1..]);
      ([first.0] + rest.0, rest.1)
  }

  /**
   * Running one more call after a session: its replies are the session's
   * replies followed by that call's reply, from the state the session left.
   */
  lemma {:induction false} RunSnoc<V>(s: State<V>, calls: seq<Call<V>>, c: Call<V>)
    ensures Run(s, calls + [c]).0 == Run(s, calls).0 + [Apply(Run(s, calls).1, c).0]
    ensures Run(s, calls + [c]).1 == Apply(Run(s, calls).1, c).1
    decreases |calls|
  {
    if calls == [] {
      assert calls + [c] == [c];
      assert [c][1..] == [];
    } else {
      var first := Apply(s, calls[0]);
      assert (calls + [c])[0] == calls[0];
      assert (calls + [c])[1..] == calls[1..] + [c];
      RunSnoc(first.1, calls[1..], c);
    }
  }
}

/**
 * What each operation of a `KeyVal` handle does to the shared table, as
 * functions of the table and of the handle's state (its bound name, or
 * none once disconnected).
 *
 * Python's exceptions become the `Error` alternatives of a `Result`:
 * `NameError` for a handle that has been disconnected, `KeyError` for a
 * missing (name, key) row, and `AttributeError` for disconnecting a handle
 * that is already disconnected (`del` of an attribute that is gone).
 */
module KeyValSpec {
  import opened KvTable

  datatype Error =
    | NameError
    | KeyError(name: Name, key: Key)
    | AttributeError

  datatype Result<T> = Ok(value: T) | Err(error: Error)

  /** The reply of an operation and the table it leaves behind. */
  datatype Step<T, V> = Step(result: Result<T>, table: Table<V>)

  /** A handle: bound to a name, or `None` once `disconnect` removed it. */
  type Handle = Option<Name>

  /** `KeyVal(name)` and `KeyVal.connect(name)`: a handle bound to `name`. */
  function Connect(n: Name): Handle
  {
    Some(n)
  }

  /** `_get_name`: the bound name, or NameError. */
  function NameOf(h: Handle): Result<Name>
  {
    match h
    case None => Err(NameError)
    case Some(n) => Ok(n)
  }

  /** `_get`: the row for (name, key), or KeyError when there is none. */
  function FindRow<V>(t: Table<V>, h: Handle, k: Key): Result<Row<V>>
  {
    match h
    case None => Err(NameError)
    case Some(n) =>
      if Slot(n, k) in t then Ok(Row(n, k, t[Slot(n, k)])) else Err(KeyError(n, k))
  }

  /** `set`: create the row or overwrite its value; reports whether it was created. */
  function SetOp<V>(t: Table<V>, h: Handle, k: Key, v: V): Step<bool, V>
  {
    match h
    case None => Step(Err(NameError), t)
    case Some(n) => Step(Ok(Slot(n, k) !in t), t[Slot(n, k) := v])
  }

  /** `exists`: whether the row is there. */
  function ExistsOp<V>(t: Table<V>, h: Handle, k: Key): Result<bool>
  {
    match h
    case None => Err(NameError)
    case Some(n) => Ok(Slot(n, k) in t)
  }

  /** `get`: the stored value, or KeyError. */
  function GetOp<V>(t: Table<V>, h: Handle, k: Key): Result<V>
  {
    match h
    case None => Err(NameError)
    case Some(n) => if Slot(n, k) in t then Ok(t[Slot(n, k)]) else Err(KeyError(n, k))
  }

  /** `get_default`: the stored value, or `d` when the row is missing. */
  function GetDefaultOp<V>(t: Table<V>, h: Handle, k: Key, d: V): Result<V>
  {
    match h
    case None => Err(NameError)
    case Some(n) => Ok(if Slot(n, k) in t then t[Slot(n, k)] else d)
  }

  /** `pop`: the stored value, with its row removed; KeyError when missing. */
  function PopOp<V>(t: Table<V>, h: Handle, k: Key): Step<V, V>
  {
    match h
    case None => Step(Err(NameError), t)
    case Some(n) =>
      if Slot(n, k) in t then Step(Ok(t[Slot(n, k)]), t - {Slot(n, k)})
      else Step(Err(KeyError(n, k)), t)
  }

  /** `pop_default`: like `pop`, but `d` and no change when the row is missing. */
  function PopDefaultOp<V>(t: Table<V>, h: Handle, k: Key, d: V): Step<V, V>
  {
    match h
    case None => Step(Err(NameError), t)
    case Some(n) =>
      if Slot(n, k) in t then Step(Ok(t[Slot(n, k)]), t - {Slot(n, k)})
      else Step(Ok(d), t)
  }

  /** `delete`: remove the row; a missing row is KeyError unless `ignoreKeyError`. */
  function DeleteOp<V>(t: Table<V>, h: Handle, k: Key, ignoreKeyError: bool): Step<bool, V>
  {
    match h
    case None => Step(Err(NameError), t)
    case Some(n) =>
      if Slot(n, k) in t then Step(Ok(true), t - {Slot(n, k)})
      else if ignoreKeyError then Step(Ok(false), t)
      else Step(Err(KeyError(n, k)), t)
  }

  /** `flush`: remove every row of the handle's name. */
  function FlushOp<V>(t: Table<V>, h: Handle): Step<(), V>
  {
    match h
    case None => Step(Err(NameError), t)
    case Some(n) => Step(Ok(()), DropName(t, n))
  }

  /** `flush_all`: remove every row of every name; needs no bound name. */
  function FlushAllOp<V>(t: Table<V>): Table<V>
  {
    map[]
  }

  /** `disconnect`: forget the name; a second disconnect is AttributeError. */
  function DisconnectOp(h: Handle): (Result<()>, Handle)
  {
    match h
    case None => (Err(AttributeError), None)
    case Some(_) => (Ok(()), None)
  }
}

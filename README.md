# django_keyval: the `KeyVal` store handle

A model of the namespaced key-value store of `django_keyval`. One shared
table (`_KvStore`) holds rows `(name, key, value)`, unique on `(name, key)`.
A `KeyVal` handle is bound to one store name and offers a dictionary-like
interface over the rows of that name: `set`, `exists`, `get`,
`get_default`, `pop`, `pop_default`, `delete` (with `ignore_keyerror`),
`flush`, the static `flush_all`, and `disconnect`, which removes the
handle's name so that every per-name operation afterwards raises
`NameError`.

Files and modules:

- `kv_table.dfy`, module `KvTable`: the table as a map from the pair
  `Slot(name, key)` to the value. Because it is a map, the uniqueness
  constraint holds by construction. `Rows` gives the row view of the
  table and `View(t, n)` gives what a handle bound to `n` sees.
- `keyval_spec.dfy`, module `KeyValSpec`: every handle operation as a
  function of the table and the handle state (`Some(name)` or `None` once
  disconnected). Each function returns the reply and the new table.
  Python's exceptions become `Error` values: `NameError`,
  `KeyError(name, key)` and `AttributeError`.
- `keyval_session.dfy`, module `KeyValSession`: a call datatype, `Apply`
  for one call, and `Run` for a sequence of calls through one handle, as
  the test cases issue them.
- `keyval_laws.dfy`, module `KeyValLaws`: the properties the code and its
  tests promise, as lemmas over these functions.
- `keyval_handle.dfy`, module `KeyValHandle`: the imperative model. It has
  a class `Store` with a mutable `rows` map (the shared table) and a class
  `KeyVal` with a mutable `name` and a reference to the store. Each method
  makes the same calls as the Python method. `exists`, `get` and `delete`
  go through `_get`. `pop` is `get` followed by `delete`. The `*_default`
  variants catch KeyError only. Each method is proved to give the reply and
  leave the table that the matching `KeyValSpec` function prescribes.
  `Perform` dispatches one session call, so the single-call lemmas
  (`CallIsolation`, `DisconnectedCall`) apply to real handles. `PerformAll`
  performs a whole sequence of calls on one handle and is proved to give
  what `Run` gives, so the session lemmas (`SessionIsolation`,
  `DisconnectedSession`, `ReconnectSeesValues`) apply to real handles too.

Three behaviours of the code that the model keeps as written:

- A second `disconnect` on the same handle is `AttributeError`, because
  `del self.name` is applied to an attribute that is already gone. It is
  not `NameError`.
- The name given to the constructor is not validated.
- `delete(key, ignore_keyerror=True)` on a disconnected handle is
  `NameError`, because only KeyError is caught.

## Model

| member | source | states |
|---|---|---|
| KvTable.UniqueTogether | django_keyval/models.py:142-143 | two rows of the table that agree on name and key are the same row |
| KvTable.RowOfSlot | django_keyval/models.py:133-143 | a row (name, key, value) is in the table exactly when the (name, key) slot holds that value |
| KvTable.View | django_keyval/models.py:68 | a handle bound to `n` sees exactly the keys that have a row under name `n`, each with its row's value |
| KvTable.DropName | django_keyval/models.py:127 | the filtered delete keeps exactly the rows of other names, with their values |
| KvTable.ViewsAgree | django_keyval/models.py:68 | tables that agree on every row of name `n` look the same through a handle bound to `n` |
| KeyValSession.Run | django_keyval/tests.py:205-229 | a sequence of calls through one handle gives one reply per call, the first being the first call's reply |
| KeyValSession.RunSnoc | django_keyval/tests.py:205-229 | one more call after a sequence adds exactly that call's reply, taken in the state the sequence left, and that call's new state |
| KeyValHandle.Store.constructor | django_keyval/models.py:133-140 | a new table has no rows |
| KeyValHandle.KeyVal.constructor | django_keyval/models.py:34-38 | a new handle is bound to the given name and shares the given store |
| KeyValHandle.KeyVal.ConnectTo | django_keyval/models.py:40-45 | `connect` gives a fresh handle bound to the name and changes no row |
| KeyValHandle.KeyVal.FlushAll | django_keyval/models.py:47-52 | afterwards the table is empty and every name sees nothing, whatever the handle's state |
| KeyValHandle.KeyVal.GetName | django_keyval/models.py:54-61 | the bound name when connected, NameError when disconnected, as `NameOf` prescribes |
| KeyValHandle.KeyVal.Find | django_keyval/models.py:63-71 | the row of (name, key) when present, KeyError(name, key) when absent, NameError before any lookup when disconnected |
| KeyValHandle.KeyVal.Set | django_keyval/models.py:73-81 | true exactly when (name, key) had no row; the row now holds the value, whether created or overwritten; nothing else changes; NameError with no change when disconnected |
| KeyValHandle.KeyVal.Exists | django_keyval/models.py:83-88 | true exactly when the key is in the handle's view, false (not an error) when absent; NameError is not caught |
| KeyValHandle.KeyVal.Get | django_keyval/models.py:90-91 | the stored value when present, KeyError(name, key) when absent, NameError when disconnected |
| KeyValHandle.KeyVal.GetDefault | django_keyval/models.py:93-97 | the stored value when present, the default when absent, NameError when disconnected; the table is not changed |
| KeyValHandle.KeyVal.Pop | django_keyval/models.py:99-105 | on success the old value of the row, and the table loses exactly that row; on failure the table is unchanged |
| KeyValHandle.KeyVal.PopDefault | django_keyval/models.py:107-111 | as `pop`, except that a missing key gives the default with no change |
| KeyValHandle.KeyVal.Delete | django_keyval/models.py:113-121 | true and exactly that row removed when present; KeyError, or false with `ignoreKeyError`, and no change when absent |
| KeyValHandle.KeyVal.Flush | django_keyval/models.py:123-127 | the handle's name then sees nothing, and every other name sees what it saw before |
| KeyValHandle.KeyVal.Disconnect | django_keyval/models.py:129-130 | the handle is left without a name; the rows are untouched; AttributeError if it had none already |
| KeyValHandle.KeyVal.Perform | django_keyval/models.py:32-130 | one call on a real handle gives the reply and the table and handle state that the session semantics `Apply` gives |
| KeyValHandle.PerformAll | django_keyval/models.py:32-130 | a sequence of calls performed on a real handle gives the replies, the table and the handle state that `Run` gives |
| KeyValHandle.TwoNames | django_keyval/tests.py:50-74 | through two handles on one store: a first `set` creates, a second overwrites, the other name still gets KeyError, and the last value set is read back |
| KeyValHandle.DisconnectThenReconnect | django_keyval/tests.py:197-234 | a disconnected handle's `get` is NameError, and a fresh handle bound to the same name reads the stored value |
| KeyValLaws.SetCreatedIff | django_keyval/models.py:73-81 | `set` reports creation exactly when the handle saw no such key |
| KeyValLaws.SetLastWriteWins | django_keyval/tests.py:50-74 | after `set(k, v1)`, `get(k)` is `v1`; a second `set(k, v2)` reports false and `get(k)` is then `v2` |
| KeyValLaws.SetFrame | django_keyval/models.py:75-80 | `set` changes no row other than the one of (name, key) |
| KeyValLaws.SetKeepsOneRow | django_keyval/models.py:75-80 | after `set` there is exactly one row with that name and key, and it holds the value set |
| KeyValLaws.Absence | django_keyval/tests.py:58-63 | on a missing key `get` is KeyError, `get_default` gives the default and leaves the table, `exists` is false |
| KeyValLaws.Presence | django_keyval/tests.py:144-155 | on a present key `get` and `get_default` give the stored value and `exists` is true |
| KeyValLaws.PopOnce | django_keyval/tests.py:108-123 | `pop` returns the stored value and removes only that row; `exists` is then false and a second `pop` is KeyError |
| KeyValLaws.PopDefaultLaws | django_keyval/tests.py:126-141 | `pop_default` is `pop` on a present key and the default with an unchanged table on a missing one |
| KeyValLaws.DeleteLaws | django_keyval/tests.py:77-105 | `delete` on a present key removes it and is true; on a missing key it is KeyError, or false with `ignoreKeyError`, with no change |
| KeyValLaws.FlushScope | django_keyval/tests.py:158-175 | `flush` succeeds, empties the handle's name and leaves every other name's view unchanged |
| KeyValLaws.FlushAllScope | django_keyval/tests.py:178-195 | `flush_all` succeeds through any handle, disconnected or not, and every name then sees nothing |
| KeyValLaws.CallIsolation | django_keyval/models.py:68-127 | any call except `flush_all` through a handle not bound to `m` leaves `m`'s view unchanged, and never binds the handle to `m` |
| KeyValLaws.SessionIsolation | django_keyval/tests.py:58-74 | no sequence of such calls through a handle not bound to `m` changes what a handle bound to `m` sees |
| KeyValLaws.DisconnectedCall | django_keyval/models.py:54-61 | on a disconnected handle every call except `flush_all` changes nothing and is NameError (AttributeError for `disconnect`) |
| KeyValLaws.DisconnectedSession | django_keyval/tests.py:205-229 | a whole sequence of such calls on a disconnected handle leaves table and handle unchanged, each reply being NameError (AttributeError for `disconnect`) |
| KeyValLaws.ReconnectSeesValues | django_keyval/tests.py:231-234 | after `disconnect` and further calls on that handle, a fresh handle bound to the same name still gets every earlier value |

The functions of `KeyValSpec` (`NameOf`, `FindRow`, `SetOp`, `ExistsOp`, `GetOp`,
`GetDefaultOp`, `PopOp`, `PopDefaultOp`, `DeleteOp`, `FlushOp`,
`FlushAllOp`, `DisconnectOp`) define what each operation does. They carry
no contract of their own. What they promise is stated by the lemmas of
`KeyValLaws` above, and the `KeyVal` methods are tied to them.

## Left out

- Pickle serialisation (`pickle.dumps` / `pickle.loads`): the value is stored as it is given, generic in `V`. Round-tripping any value through the table is identity here, which is what the code relies on pickle for.
- The Django ORM and database: the table is an in-memory map held by `Store`. Connectivity and other database failures are not modelled.
- The `max_length=255` limits on name and key: the database enforces them, not the handle.
- Concurrency: the race between simultaneous `get_or_create` calls for one key. `set` is one sequential step.
- The management command `keyval.py`, the admin registration and the packaging script are thin wrappers with no logic of the handle's own.
- KeyValSession.Run: a sequence of calls goes through one handle; calls interleaved across several handles (as `kv1`, `kv2` and a fresh `kv1` are in the disconnect test case) are covered only by the per-call lemmas and by the scenario methods `TwoNames` and `DisconnectThenReconnect`, not by a session lemma.
- Python's dynamic typing of `key` (any value Django turns into a string): keys and names are strings.

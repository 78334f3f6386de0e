# yieldpoints in Dafny

A model of the `yieldpoints` package: the yield points a Tornado `gen.engine`
coroutine hands to its driver (the `gen.Runner`). The driver starts a yield point
with itself (`start`), polls it (`is_ready`) and, once it is ready, collects its
result (`get_result`) and sends it into the coroutine, or raises the error
`get_result` raised. The yield points read and change the driver's registry of
pending callback keys and cached results:

- `cancel(runner, key)` takes a key off the pending set; a key that is not
  pending raises `UnknownKeyError`.
- `WaitAny(keys)` is ready when any key of its list has a result; `get_result`
  scans the list in the caller's order and collects the first ready key as a
  `(key, result)` pair, or raises when none is ready.
- `WithTimeout(deadline, yield_point)` wraps a yield point (a bare key becomes a
  single-key `gen.Wait`) and adds an `expired` flag, set by the timer callback
  `expire`. Expiry makes it ready, and `get_result` then raises
  `TimeoutException` even when the wrapped yield point is ready too.
- `Cancel(key)` and `CancelAll()` cancel one key, or every pending key, when
  started; they are always ready and return `None`. `CancelAll` cancels the keys
  of a copy of the pending set, because each cancel shrinks the live set.

Files:

- `registry.dfy` (module `Registry`): the class `Runner`, holding the pending set
  and the cached results. It carries the behaviour of Tornado's runner that the
  yield points rely on: `IsReady(k)` is `k in results`, and `PopResult(k)`
  requires a ready key, removes its result and unregisters the key from the
  pending set. Tornado's runner is not part of
  this model, so this class states that behaviour as an assumed contract.
- `yieldpoints.dfy` (module `YieldPoints`): `CancelKey` (the `cancel` function),
  the error and reply datatypes, and the closed datatype `YieldPoint`
  (`Wait | WaitAny | Cancel | CancelAll`). Each `YieldPoint` has specification
  functions for `is_ready`, `start` and `get_result` (`Ready`, `AfterStart`,
  `AfterGetResult`) and methods `Start` and `GetResult` that act on a `Runner` and
  are proved against them. The `WaitAny` scan (`WaitAnyGetResult`) and the
  `CancelAll` drain (`CancelAllStart`) are loops with invariants. `WithTimeout`
  is a class whose fields `expired`, `timeout` and `runner` are updated in place.
- `scan_order.dfy` (module `ScanOrder`): what `WaitAny`'s positional tie-break
  means for a coroutine that repeatedly waits on its list and removes each key it
  gets, as `test_basic` does.
- `scenarios.dfy` (module `Scenarios`): the package's tests restated as client
  methods whose expectations are checked assertions.

`Timeout` is named in `__all__` (yieldpoints/__init__.py:15), but no class in
the package defines it, so this model has no `Timeout` yield point. `WaitAny`
takes only its list of keys (yieldpoints/__init__.py:37-38): it has no deadline
and no timeout of its own; a deadline on it comes from wrapping it in
`WithTimeout`.

## Model

| member | source | states |
|---|---|---|
| `Registry.Runner.PopResult` | yieldpoints/__init__.py:48-49 | assumed runner behaviour: a ready key's cached result is returned, that key (only) leaves `results`, so it is delivered at most once, and the collected key leaves `pending` |
| `YieldPoints.CancelKey` | yieldpoints/__init__.py:20-24 | a pending key is removed from `pending` and nothing else changes; a key that is not pending gives `UnknownKeyError(key)` and leaves `pending` as it was; `results` never changes |
| `YieldPoints.AnyReady` | yieldpoints/__init__.py:43-44 | `WaitAny.is_ready` holds exactly when some key of the list has a cached result |
| `YieldPoints.FirstReady` | yieldpoints/__init__.py:46-50 | the position the scan stops at is the first position in list order whose key is ready; none is returned exactly when no key of the list is ready |
| `YieldPoints.YieldPoint.Ready` | yieldpoints/__init__.py:43-44 | `is_ready` of every yield point: a waiting one (a single-key wait or `WaitAny`) is ready iff one of its keys has a result; `Cancel` and `CancelAll` (lines 100-101, 115-116) are always ready |
| `YieldPoints.YieldPoint.AfterStart` | yieldpoints/__init__.py:97-113 | `start` never adds a pending key; it fails only for `Cancel` of a key that is not pending, with `UnknownKeyError` and `pending` unchanged; `Cancel(k)` leaves `pending - {k}`, `CancelAll` leaves nothing pending, the waits leave `pending` alone |
| `YieldPoints.YieldPoint.AfterGetResult` | yieldpoints/__init__.py:46-50 | `get_result` succeeds exactly when `is_ready` holds; a failure changes nothing; it removes at most the one result it returns and changes no other entry; `WaitAny` returns the first ready key in list order with its cached result and removes it; `Cancel`/`CancelAll` (lines 103-104, 118-119) return `None` and change nothing |
| `YieldPoints.YieldPoint.Start` | yieldpoints/__init__.py:97-113 | `start` on a runner changes `pending` as `AfterStart` says, and `results` not at all |
| `YieldPoints.YieldPoint.GetResult` | yieldpoints/__init__.py:46-50 | `get_result` on a runner returns and leaves `results` as `AfterGetResult` says; `pending` loses exactly the key whose result was collected, and nothing when it fails or for `Cancel`/`CancelAll` |
| `YieldPoints.WaitAnyGetResult` | yieldpoints/__init__.py:46-50 | the loop returns `(k, v)`, where `k` is the first ready key in list order and `v` its old cached result, and removes exactly `k` from `results` and from `pending`; with no key ready it raises `NoResultsFound` and changes nothing |
| `YieldPoints.CancelAllStart` | yieldpoints/__init__.py:110-113 | whatever was pending, nothing is pending afterwards and `results` is unchanged; no cancel of the snapshot's keys fails (checked inside the loop) |
| `YieldPoints.KeyIsWait` | yieldpoints/__init__.py:63-67 | `WithTimeout(deadline, key)` wraps the same yield point as `WithTimeout(deadline, gen.Wait(key))` |
| `YieldPoints.WithTimeout.constructor` | yieldpoints/__init__.py:61-70 | a bare key becomes a single-key wait, a yield point is kept as is; not expired, no timer yet |
| `YieldPoints.WithTimeout.Start` | yieldpoints/__init__.py:72-75 | keeps the runner, records the timer handle, leaves `expired` alone, and starts the wrapped yield point with its effect on `pending` |
| `YieldPoints.WithTimeout.IsReady` | yieldpoints/__init__.py:77-78 | ready when expired; otherwise ready exactly when the wrapped yield point is |
| `YieldPoints.WithTimeout.GetResult` | yieldpoints/__init__.py:80-84 | when expired it raises `TimeoutException` and changes neither `results` nor `pending`, even if the wrapped yield point is ready; otherwise it returns exactly the wrapped yield point's result and effect, the collected key leaving `pending` |
| `YieldPoints.WithTimeout.Expire` | yieldpoints/__init__.py:86-88 | sets `expired`, and leaves the runner's `pending` and `results` as they were: the wrapped keys stay registered until the coroutine cancels them |
| `ScanOrder.RemoveFirst` | test/test_yieldpoints.py:34 | `list.remove` drops one occurrence of the key: the list is one shorter and its multiset loses exactly that key |
| `ScanOrder.DrainFollowsScanOrder` | test/test_yieldpoints.py:30-36 | when no result arrives during the drain, a coroutine that repeatedly collects from `WaitAny` and removes the key it got collects exactly the ready keys of a distinct list, each once, in list order, whatever order their results arrived in beforehand; with one result per wake-up, as in `test_basic`, the history follows arrival order instead (the assertions of `Scenarios.WaitAnyInArrivalOrderOneAtATime`) |
| `ScanOrder.DrainAllReady` | test/test_yieldpoints.py:30-36 | when every key already has a result, the keys are collected in exactly the list's order |
| `ScanOrder.ArrivalKeepsScanOrder` | yieldpoints/__init__.py:47-49 | a result arriving for key `x` can move `WaitAny`'s choice only to an earlier position holding `x`; a key later in the list never beats a ready key earlier in it |

## Left out

- Timer scheduling through `io_loop.add_timeout` and the default `IOLoop.instance()` (yieldpoints/__init__.py:70, 74): `WithTimeout.Start` takes the timer's handle as a parameter, and the timer firing is an explicit call to `WithTimeout.Expire`. The deadline is stored and never inspected.
- `self.runner.run()` in `expire` (yieldpoints/__init__.py:88): resuming the coroutine is the driver's control flow, which is not part of this model.
- Tornado's `gen.Runner`, `gen.Wait`, `gen.Task` and `gen.Callback` are not part of this model. `Runner` holds only the registry state the yield points use. The single-key wait is modelled by what it does to that state: it is ready iff its key has a result, and `get_result` pops that result (or raises `KeyError` when there is none).
- Registry.Runner.PopResult: the real runner's `pop_result` raises `KeyError` when the key is not pending, and its `is_ready` raises `UnknownKeyError` for a key that is not pending. The model requires only that the key is ready, and `IsReady` is `key in results`. So a result that arrives for an already cancelled key is ready in the model, where Tornado would raise from `is_ready`.
- The `LeakedCallbackError` integrity check, and the harmlessness of a callback that runs after its key was cancelled or timed out (test/test_yieldpoints.py:80-93, 195-199): both are behaviour of Tornado's runner.
- `gen.Task` as a wrapped yield point (test/test_yieldpoints.py:141-161): it needs Tornado's task machinery. The closed `YieldPoint` datatype covers `WaitAny`, `Cancel`, `CancelAll` and the single-key wait.
- A `WithTimeout` wrapped in another `WithTimeout`: the `isinstance` test at yieldpoints/__init__.py:63 accepts it, but the model's wrapped yield point (`WithTimeout.inner`) is a `YieldPoint` value, which cannot hold a `WithTimeout` object. Wrapping `WaitAny`, a bare key, or a cancel is modelled.
- Wall-clock duration assertions in the tests (test/test_yieldpoints.py:74-76, 120-121): real time and floating point.
- The exception messages (`"key %r is not pending"`, `"no results found"`): errors are datatype constructors without text.
- The HTTP example (examples/example.py), packaging (setup.py) and the version string (yieldpoints/__init__.py:8-11).

/** The yield points of the yieldpoints package: descriptors a coroutine hands
    to its driver. The driver starts a descriptor with its registry (start),
    polls it (is_ready) and, once it is ready, collects its result
    (get_result), which it returns or raises into the coroutine. */
module YieldPoints {
  import opened Registry

  datatype Option<T> = None | Some(value: T)

  datatype Result<T, E> = Ok(value: T) | Err(error: E)

  /** What a yield point raises into the coroutine. */
  datatype Error<K> =
    | UnknownKeyError(key: K)  // cancelling a key that is not pending
    | TimeoutException         // a WithTimeout whose deadline came first
    | NoResultsFound           // WaitAny.get_result with none of its keys ready
    | KeyError(key: K)         // a single-key wait collected before its result arrived

  /** What get_result hands back to the coroutine. */
  datatype Reply<K, V> =
    | Nothing                  // None
    | Value(value: V)          // the result of a single-key wait
    | Keyed(key: K, value: V)  // WaitAny's (key, result) pair

  /** cancel(runner, key): takes a key off the pending set, so the driver will
      not report it as a leaked callback; a key that is not pending is an error. */
  method CancelKey<K(==), V>(runner: Runner<K, V>, key: K) returns (r: Result<(), Error<K>>)
    modifies runner
    ensures old(key in runner.pending) ==> r == Ok(()) && runner.pending == old(runner.pending) - {key}
    ensures old(key !in runner.pending) ==>
      r == Err(UnknownKeyError(key)) && runner.pending == old(runner.pending)
    ensures runner.results == old(runner.results)
  {
    if key in runner.pending {
      runner.pending := runner.pending - {key};
      r := Ok(());
    } else {
      r := Err(UnknownKeyError(key));
    }
  }

  /** WaitAny.is_ready: some key of the list has a result. */
  function AnyReady<K(==), V>(keys: seq<K>, results: map<K, V>): (r: bool)
    ensures r <==> exists i :: 0 <= i < |keys| && keys[i] in results
  {
    |keys| > 0 && (keys[0] in results || AnyReady(keys[1..], results))
  }

  /** Index i is where WaitAny's scan stops: the first key of the list, in
      list order, that has a result. */
  predicate IsFirstReady<K(==), V>(keys: seq<K>, results: map<K, V>, i: int)
  {
    0 <= i < |keys| && keys[i] in results && forall j :: 0 <= j < i ==> keys[j] !in results
  }

  /** The position WaitAny.get_result collects from, if any. */
  function FirstReady<K(==), V>(keys: seq<K>, results: map<K, V>): (r: Option<nat>)
    ensures r.Some? ==> IsFirstReady(keys, results, r.value)
    ensures r.None? ==> forall j :: 0 <= j < |keys| ==> keys[j] !in results
  {
    if |keys| == 0 then None
    else if keys[0] in results then Some(0)
    else match FirstReady(keys[1..], results)
      case None => None
      case Some(i) => Some(i + 1)
  }

  /** The descriptors a coroutine can yield. Wait(key) is the driver's own
      single-key wait, which WithTimeout uses for a bare key. */
  datatype YieldPoint<K(==)> =
    | Wait(key: K)
    | WaitAny(keys: seq<K>)
    | Cancel(key: K)
    | CancelAll
  {
    /** The descriptor suspends the coroutine until a result arrives. */
    predicate Waits()
    {
      Wait? || WaitAny?
    }

    /** The keys whose results the descriptor waits for, in scan order. */
    function Keys(): (r: seq<K>)
    {
      match this
      case Wait(k) => [k]
      case WaitAny(ks) => ks
      case _ => []
    }

    /** is_ready: a waiting descriptor is ready once one of its keys has a
        result; Cancel and CancelAll are always ready. */
    function Ready<V>(results: map<K, V>): (r: bool)
      ensures r <==> !Waits() || exists i :: 0 <= i < |Keys()| && Keys()[i] in results
    {
      match this
      case Wait(k) => assert Keys()[0] == k; k in results
      case WaitAny(ks) => assert Keys() == ks; AnyReady(ks, results)
      case Cancel(_) => true
      case CancelAll => true
    }

    /** start, on the pending set: whether it raises, and the pending set
        afterwards. A start never adds a key; only the cancel descriptors
        remove keys. */
    function AfterStart(pending: set<K>): (r: (Result<(), Error<K>>, set<K>))
      ensures r.1 <= pending
      ensures r.0.Err? <==> Cancel? && key !in pending
      ensures r.0.Err? ==> r.0.error == UnknownKeyError(key) && r.1 == pending
      ensures Cancel? ==> r.1 == pending - {key}
      ensures CancelAll? ==> r.1 == {}
      ensures Waits() ==> r.1 == pending
    {
      match this
      case Wait(_) => (Ok(()), pending)
      case WaitAny(_) => (Ok(()), pending)
      case Cancel(k) =>
        if k in pending then (Ok(()), pending - {k}) else (Err(UnknownKeyError(k)), pending)
      case CancelAll => (Ok(()), {})
    }

    /** get_result, on the cached results: the reply or the error, and the
        results afterwards. It succeeds exactly when is_ready holds, consumes
        at most the one result it returns, and a failure changes nothing. */
    function AfterGetResult<V>(results: map<K, V>): (r: (Result<Reply<K, V>, Error<K>>, map<K, V>))
      ensures r.0.Ok? <==> Ready(results)
      ensures r.0.Err? ==> r.1 == results
      ensures forall k :: k in r.1 ==> k in results && r.1[k] == results[k]
      ensures Wait? && r.0.Ok? ==> r.0.value == Value(results[key]) && r.1 == results - {key}
      ensures Wait? && r.0.Err? ==> r.0.error == KeyError(key)
      ensures WaitAny? && r.0.Ok? ==>
        exists i :: IsFirstReady(keys, results, i) &&
          r.0.value == Keyed(keys[i], results[keys[i]]) && r.1 == results - {keys[i]}
      ensures WaitAny? && r.0.Err? ==> r.0.error == NoResultsFound
      ensures !Waits() ==> r == (Ok(Nothing), results)
    {
      match this
      case Wait(k) =>
        if k in results then (Ok(Value(results[k])), results - {k}) else (Err(KeyError(k)), results)
      case WaitAny(ks) =>
        (match FirstReady(ks, results)
         case Some(i) => (Ok(Keyed(ks[i], results[ks[i]])), results - {ks[i]})
         case None => (Err(NoResultsFound), results))
      case Cancel(_) => (Ok(Nothing), results)
      case CancelAll => (Ok(Nothing), results)
    }

    /** start(runner). */
    method Start<V>(runner: Runner<K, V>) returns (r: Result<(), Error<K>>)
      modifies runner
      ensures (r, runner.pending) == AfterStart(old(runner.pending))
      ensures runner.results == old(runner.results)
    {
      match this
      case Wait(_) => r := Ok(());
      case WaitAny(_) => r := Ok(());
      case Cancel(k) => r := CancelKey(runner, k);
      case CancelAll => CancelAllStart(runner); r := Ok(());
    }

    /** get_result(). */
    method GetResult<V>(runner: Runner<K, V>) returns (r: Result<Reply<K, V>, Error<K>>)
      modifies runner
      ensures (r, runner.results) == AfterGetResult(old(runner.results))
      ensures runner.pending == old(runner.pending) - (old(runner.results).Keys - runner.results.Keys)
    {
      match this
      case Wait(k) =>
        if runner.IsReady(k) {
          var v := runner.PopResult(k);
          r := Ok(Value(v));
        } else {
          r := Err(KeyError(k));
        }
      case WaitAny(ks) =>
        r := WaitAnyGetResult(ks, runner);
        if r.Ok? {
          ghost var i :| IsFirstReady(ks, old(runner.results), i) && r.value == Keyed(ks[i], old(runner.results)[ks[i]]);
          FirstReadyUnique(ks, old(runner.results), i, FirstReady(ks, old(runner.results)).value);
        }
      case Cancel(_) => r := Ok(Nothing);
      case CancelAll => r := Ok(Nothing);
    }
  }

  /** At most one position satisfies IsFirstReady. */
  lemma FirstReadyUnique<K, V>(keys: seq<K>, results: map<K, V>, i: int, j: int)
    requires IsFirstReady(keys, results, i) && IsFirstReady(keys, results, j)
    ensures i == j
  {
  }

  /** WaitAny.get_result: scans the keys in list order and collects the result
      of the first ready one; with no key ready it raises and changes nothing. */
  method WaitAnyGetResult<K(==), V>(keys: seq<K>, runner: Runner<K, V>) returns (r: Result<Reply<K, V>, Error<K>>)
    modifies runner
    ensures r.Ok? <==> AnyReady(keys, old(runner.results))
    ensures r.Ok? ==>
      exists i :: IsFirstReady(keys, old(runner.results), i) &&
        r.value == Keyed(keys[i], old(runner.results)[keys[i]]) &&
        runner.results == old(runner.results) - {keys[i]} &&
        runner.pending == old(runner.pending) - {keys[i]}
    ensures r.Err? ==>
      r.error == NoResultsFound && runner.results == old(runner.results) &&
      runner.pending == old(runner.pending)
  {
    var i := 0;
    while i < |keys|
      invariant 0 <= i <= |keys|
      invariant forall j :: 0 <= j < i ==> keys[j] !in runner.results
      invariant runner.results == old(runner.results) && runner.pending == old(runner.pending)
    {
      if runner.IsReady(keys[i]) {
        var v := runner.PopResult(keys[i]);
        assert IsFirstReady(keys, old(runner.results), i);
        return Ok(Keyed(keys[i], v));
      }
      i := i + 1;
    }
    return Err(NoResultsFound);
  }

  /** CancelAll.start: cancels every key of a copy of the pending set, taken
      first because each cancel shrinks the live set. No cancel of the copy
      raises, and nothing is left pending. */
  method CancelAllStart<K(==), V>(runner: Runner<K, V>)
    modifies runner
    ensures runner.pending == {}
    ensures runner.results == old(runner.results)
  {
    var snapshot := runner.pending;
    var todo := snapshot;
    ghost var visited: set<K> := {};
    while todo != {}
      invariant todo == snapshot - visited && visited <= snapshot
      invariant runner.pending == snapshot - visited
      invariant runner.results == old(runner.results)
      decreases todo
    {
      var key :| key in todo;
      var r := CancelKey(runner, key);
      assert r.Ok?;
      visited := visited + {key};
      todo := todo - {key};
    }
  }

  /** The argument of WithTimeout: a yield point, or a bare key. */
  datatype Target<K(==)> = Point(point: YieldPoint<K>) | Key(key: K)

  /** WithTimeout's normalisation of its argument: a bare key becomes a
      single-key wait. */
  function Normalize<K(==)>(target: Target<K>): (r: YieldPoint<K>)
  {
    match target
    case Point(yp) => yp
    case Key(k) => Wait(k)
  }

  /** WithTimeout(deadline, key) and WithTimeout(deadline, Wait(key)) wrap the
      same descriptor. */
  lemma KeyIsWait<K>(key: K)
    ensures Normalize(Key(key)) == Normalize(Point(Wait(key)))
  {
  }

  /** WithTimeout: waits for an inner yield point or for its deadline,
      whichever comes first; the deadline raises TimeoutException. */
  class WithTimeout<K(==), V> {
    /** The deadline, handed to the timer service and never inspected here. */
    const deadline: int
    const inner: YieldPoint<K>
    var expired: bool
    /** The handle of the armed timer, once started. */
    var timeout: Option<nat>
    var runner: Runner?<K, V>

    constructor (deadline: int, yieldPoint: Target<K>)
      ensures this.deadline == deadline && inner == Normalize(yieldPoint)
      ensures !expired && timeout == None && runner == null
    {
      this.deadline := deadline;
      inner := Normalize(yieldPoint);
      expired := false;
      timeout := None;
      runner := null;
    }

    /** start: keeps the runner, arms the timer (whose handle the timer
        service returned) and starts the inner yield point. */
    method Start(runner: Runner<K, V>, handle: nat) returns (r: Result<(), Error<K>>)
      modifies this, runner
      ensures this.runner == runner && timeout == Some(handle) && expired == old(expired)
      ensures (r, runner.pending) == inner.AfterStart(old(runner.pending))
      ensures runner.results == old(runner.results)
    {
      this.runner := runner;
      timeout := Some(handle);
      r := inner.Start(runner);
    }

    /** is_ready: expired, or the inner yield point is ready. */
    function IsReady(): (r: bool)
      requires runner != null
      reads this, runner
      ensures expired ==> r
      ensures !expired ==>
        (r <==> !inner.Waits() || exists i :: 0 <= i < |inner.Keys()| && inner.Keys()[i] in runner.results)
    {
      expired || inner.Ready(runner.results)
    }

    /** get_result: expiry wins over an inner yield point that is also ready;
        otherwise the inner yield point's result, unchanged. */
    method GetResult() returns (r: Result<Reply<K, V>, Error<K>>)
      requires runner != null
      modifies runner
      ensures expired ==> r == Err(TimeoutException) && runner.results == old(runner.results)
      ensures expired ==> runner.pending == old(runner.pending)
      ensures !expired ==> (r, runner.results) == inner.AfterGetResult(old(runner.results))
      ensures !expired ==>
        runner.pending == old(runner.pending) - (old(runner.results).Keys - runner.results.Keys)
    {
      if expired {
        return Err(TimeoutException);
      }
      r := inner.GetResult(runner);
    }

    /** expire, the timer callback: marks the wait as timed out. It leaves the
        inner keys registered; the coroutine cancels them itself. */
    method Expire()
      modifies this`expired
      ensures expired
      ensures runner != null ==> runner.pending == old(runner.pending) && runner.results == old(runner.results)
    {
      expired := true;
    }
  }
}

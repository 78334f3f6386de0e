/** Client code in the manner of the package's tests: each method drives the
    yield points the way the coroutine driver does and states, as checked
    assertions, what the tests expect. */
module Scenarios {
  import opened Registry
  import opened YieldPoints

  /** test_basic: results arrive for keys 1, 0, 2 one at a time, and the
      coroutine collects each as it arrives and drops it from its list. */
  method WaitAnyInArrivalOrderOneAtATime()
  {
    var runner := new Runner<int, string>({0, 1, 2}, map[1 := "b"]);
    var keys := [0, 1, 2];
    var r := WaitAny(keys).GetResult(runner);
    assert r == Ok(Keyed(1, "b"));
    keys := [0, 2];
    runner.results := runner.results[0 := "a"];
    r := WaitAny(keys).GetResult(runner);
    assert r == Ok(Keyed(0, "a"));
    keys := [2];
    runner.results := runner.results[2 := "c"];
    r := WaitAny(keys).GetResult(runner);
    assert r == Ok(Keyed(2, "c"));
    assert runner.results == map[] && runner.pending == {};
  }

  /** Collecting a key's result unregisters it, so cancelling it afterwards
      raises UnknownKeyError, as it does for a key that was never registered. */
  method CancelAfterCollect()
  {
    var runner := new Runner<int, string>({0}, map[0 := "a"]);
    var r := WaitAny([0]).GetResult(runner);
    assert r == Ok(Keyed(0, "a")) && runner.pending == {};
    var s := Cancel(0).Start(runner);
    assert s == Err(UnknownKeyError(0));
  }

  /** test_get_result: before the callback runs WaitAny is not ready and
      get_result raises; afterwards it returns the key and its result. */
  method WaitAnyBeforeAndAfterCallback()
  {
    var runner := new Runner<string, string>({"key"}, map[]);
    var w := WaitAny(["key"]);
    assert !w.Ready(runner.results);
    var r := w.GetResult(runner);
    assert r == Err(NoResultsFound);
    runner.results := runner.results["key" := "result"];
    assert w.Ready(runner.results);
    r := w.GetResult(runner);
    assert r == Ok(Keyed("key", "result"));
  }

  /** test_timeout and test_timeout_and_wait_any: the deadline passes first,
      get_result raises TimeoutException, the key stays registered until the
      coroutine cancels it. */
  method TimeoutThenCancel(wrapAny: bool)
  {
    var runner := new Runner<string, string>({"key"}, map[]);
    var w := new WithTimeout(100, if wrapAny then Point(WaitAny(["key"])) else Key("key"));
    var s := w.Start(runner, 7);
    assert s == Ok(());
    assert !w.IsReady();
    w.Expire();
    assert w.IsReady();
    var r := w.GetResult();
    assert r == Err(TimeoutException);
    assert runner.pending == {"key"};
    s := Cancel("key").Start(runner);
    assert s == Ok(()) && runner.pending == {};
  }

  /** test_timeout_cancel: the result is there before the deadline, so the
      wrapped wait's result comes back unchanged. */
  method ResultBeforeDeadline()
  {
    var runner := new Runner<string, string>({"key"}, map["key" := "result"]);
    var w := new WithTimeout(100, Key("key"));
    var s := w.Start(runner, 7);
    assert w.IsReady();
    var r := w.GetResult();
    assert r == Ok(Value("result"));
    assert runner.results == map[] && runner.pending == {};
  }

  /** test_cancel_unknown_key: cancelling a key that was never registered raises. */
  method CancelUnknownKey()
  {
    var runner := new Runner<string, string>({}, map[]);
    var s := Cancel("key").Start(runner);
    assert s == Err(UnknownKeyError("key"));
  }

  /** TestCancelAll: two callbacks are never called; CancelAll leaves nothing pending. */
  method CancelAllNeverCalled()
  {
    var runner := new Runner<int, string>({0, 1}, map[]);
    var s := CancelAll.Start(runner);
    assert s == Ok(()) && runner.pending == {};
    assert CancelAll.Ready(runner.results);
    var r := CancelAll.GetResult(runner);
    assert r == Ok(Nothing);
  }
}

/** The pending-key registry of the coroutine driver (Tornado's gen.Runner).
    The driver itself is not part of this model: this class holds only the
    state the yield points read and change, and its members state the
    behaviour the yield points rely on. */
module Registry {

  class Runner<K(==), V> {
    /** Keys the coroutine registered callbacks for and has neither collected nor cancelled. */
    var pending: set<K>
    /** Results delivered by callbacks and not yet collected by the coroutine. */
    var results: map<K, V>

    constructor (pending: set<K>, results: map<K, V>)
      ensures this.pending == pending && this.results == results
    {
      this.pending := pending;
      this.results := results;
    }

    /** A key is ready exactly when a result is cached for it. */
    predicate IsReady(key: K)
      reads this
    {
      key in results
    }

    /** Hands over the cached result of a ready key and forgets it, so that it
        is delivered at most once; the key is collected, so it is no longer
        pending either. */
    method PopResult(key: K) returns (value: V)
      requires IsReady(key)
      modifies this
      ensures value == old(results[key])
      ensures results == old(results) - {key} && !IsReady(key)
      ensures pending == old(pending) - {key}
    {
      pending := pending - {key};
      value := results[key];
      results := results - {key};
    }
  }
}

/**
 * `AppState` of week1/project/src/state.rs: a handle on one shared request
 * counter. The `Arc<RwLock<u64>>` is the `RequestCount` object; deriving
 * `Clone` copies the handle, so every clone reaches the same counter.
 */
module State {

  const U64_MAX: nat := 0xFFFF_FFFF_FFFF_FFFF

  type u64 = x: int | 0 <= x <= U64_MAX

  /** The `u64` behind the lock. */
  class RequestCount {
    var value: u64

    constructor ()
      ensures value == 0
    {
      value := 0;
    }
  }

  class AppState {
    const requestCount: RequestCount

    /** `AppState::new`: a fresh counter starting at 0. */
    constructor New()
      ensures fresh(requestCount) && requestCount.value == 0
    {
      requestCount := new RequestCount();
    }

    /** `#[derive(Clone)]`: a second handle on the same counter. */
    constructor Clone(source: AppState)
      ensures requestCount == source.requestCount
    {
      requestCount := source.requestCount;
    }

    /** `increment_requests`: one more request, under the write lock; a u64 that would overflow panics. */
    method IncrementRequests()
      requires requestCount.value < U64_MAX
      modifies requestCount
      ensures requestCount.value == old(requestCount.value) + 1
    {
      requestCount.value := requestCount.value + 1;
    }

    /** `get_request`: the current count, read without changing it. */
    method GetRequest() returns (count: u64)
      ensures count == requestCount.value
    {
      count := requestCount.value;
    }
  }

  /** From `AppState::new`, n increments make `get_request` report n. */
  method CountAfterIncrements(n: nat) returns (count: u64)
    requires n <= U64_MAX
    ensures count == n
  {
    var state := new AppState.New();
    var i := 0;
    while i < n
      invariant 0 <= i <= n
      invariant state.requestCount.value == i
    {
      state.IncrementRequests();
      i := i + 1;
    }
    count := state.GetRequest();
  }

  /** An increment through a clone is seen through the original, and the other way round. */
  method IncrementThroughClone(state: AppState) returns (viaOriginal: u64, viaClone: u64)
    requires state.requestCount.value < U64_MAX
    modifies state.requestCount
    ensures viaOriginal == viaClone == old(state.requestCount.value) + 1
    ensures state.requestCount.value == old(state.requestCount.value) + 1
  {
    var clone := new AppState.Clone(state);
    clone.IncrementRequests();
    viaOriginal := state.GetRequest();
    viaClone := clone.GetRequest();
  }
}

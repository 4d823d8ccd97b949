/**
 * `health_check` of week1/project/src/handlers/health.rs: count the request,
 * then report status "OK" and the count read back afterwards. The increment
 * and the read are two lock acquisitions; this model runs requests one at a
 * time, so the read sees exactly the increment before it.
 */
module Health {
  import opened State

  /** The JSON body `{"status": .., "request_count": ..}`. */
  datatype HealthReport = HealthReport(status: string, requestCount: u64)

  method HealthCheck(state: AppState) returns (report: HealthReport)
    requires state.requestCount.value < U64_MAX
    modifies state.requestCount
    ensures state.requestCount.value == old(state.requestCount.value) + 1
    ensures report == HealthReport("OK", state.requestCount.value)
  {
    state.IncrementRequests();
    var count := state.GetRequest();
    report := HealthReport("OK", count);
  }

  /** k health checks in a row report the counts old + 1, old + 2, ..., old + k, each with status "OK". */
  method ConsecutiveHealthChecks(state: AppState, k: nat) returns (reports: seq<HealthReport>)
    requires state.requestCount.value + k <= U64_MAX
    modifies state.requestCount
    ensures |reports| == k
    ensures forall i :: 0 <= i < k ==>
      reports[i] == HealthReport("OK", old(state.requestCount.value) + i + 1)
    ensures state.requestCount.value == old(state.requestCount.value) + k
  {
    reports := [];
    while |reports| < k
      invariant |reports| <= k
      invariant state.requestCount.value == old(state.requestCount.value) + |reports|
      invariant forall i :: 0 <= i < |reports| ==>
        reports[i] == HealthReport("OK", old(state.requestCount.value) + i + 1)
    {
      var report := HealthCheck(state);
      reports := reports + [report];
    }
  }
}

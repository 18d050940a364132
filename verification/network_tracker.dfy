/** `EndpointSpecificNetworkTracker`: the request and byte counters of one
    category, seeded from the persister, grown by each log and zeroed when
    the category's summary has been uploaded. */
module NetworkTracker {
  import opened TrafficLog

  datatype Tracker = Tracker(
    endpoint: string,
    windowLength: int,
    requestCount: int,
    requestSize: int)

  /** A tracker after an operation, and the persister calls it made. */
  datatype Effect = Effect(tracker: Tracker, calls: seq<PersisterCall>)

  /** The constructor: asks the persister for the trailing window's summary
      (which also trims older entries) and starts from it. `prior` is the
      persister's answer. */
  function NewTracker(endpoint: string, windowLength: int, prior: TrafficLogSummary): (r: Effect)
    ensures r.tracker.endpoint == endpoint && r.tracker.windowLength == windowLength
    ensures TrafficLogSummary(r.tracker.requestCount, r.tracker.requestSize) == prior
    ensures r.calls == [GetSizeAndClear(windowLength, endpoint)]
  {
    Effect(Tracker(endpoint, windowLength, prior.count, prior.size), [GetSizeAndClear(windowLength, endpoint)])
  }

  /** `addLogAndPersist`: a request adds one to the count, every log adds its
      size, and the log is handed to the persister once, unchanged. The log's
      own endpoint is not checked against the tracker's. */
  function AddLogAndPersist(t: Tracker, log: NetworkTrafficLog): (r: Effect)
    ensures r.tracker.endpoint == t.endpoint && r.tracker.windowLength == t.windowLength
    ensures r.tracker.requestCount - t.requestCount == (if log.isRequest then 1 else 0)
    ensures r.tracker.requestCount >= t.requestCount
    ensures r.tracker.requestSize - t.requestSize == log.size
    ensures r.calls == [AddLog(log)]
  {
    var count := if log.isRequest then t.requestCount + 1 else t.requestCount;
    Effect(t.(requestCount := count, requestSize := t.requestSize + log.size), [AddLog(log)])
  }

  /** `clearLog`: both counters to zero, and the persister is told to clear
      the tracker's window for its endpoint. */
  function ClearLog(t: Tracker): (r: Effect)
    ensures r.tracker.requestCount == 0 && r.tracker.requestSize == 0
    ensures r.tracker.endpoint == t.endpoint && r.tracker.windowLength == t.windowLength
    ensures r.calls == [Clear(t.windowLength, t.endpoint)]
  {
    Effect(t.(requestCount := 0, requestSize := 0), [Clear(t.windowLength, t.endpoint)])
  }

  /** Clearing twice leaves the counters as clearing once; the second clear
      repeats the same persister call. */
  lemma ClearIdempotent(t: Tracker)
    ensures ClearLog(ClearLog(t).tracker).tracker == ClearLog(t).tracker
    ensures ClearLog(ClearLog(t).tracker).calls == ClearLog(t).calls
  {
  }

  /** A run of logs added one after another. */
  function AddAll(t: Tracker, logs: seq<NetworkTrafficLog>): Effect
    decreases |logs|
  {
    if logs == [] then Effect(t, [])
    else
      var before := AddAll(t, logs[..|logs| - 1]);
      var last := AddLogAndPersist(before.tracker, logs[|logs| - 1]);
      Effect(last.tracker, before.calls + last.calls)
  }

  /** Adding a run of logs grows the count by the number of requests in it
      and the size by all their bytes, and hands every log to the persister
      once, in order. */
  lemma {:induction false} AddAllCounts(t: Tracker, logs: seq<NetworkTrafficLog>)
    ensures AddAll(t, logs).tracker.requestCount == t.requestCount + Requests(logs)
    ensures AddAll(t, logs).tracker.requestSize == t.requestSize + Bytes(logs)
    ensures AddAll(t, logs).tracker.endpoint == t.endpoint
    ensures |AddAll(t, logs).calls| == |logs|
    ensures forall i | 0 <= i < |logs| :: AddAll(t, logs).calls[i] == AddLog(logs[i])
    decreases |logs|
  {
    if logs != [] {
      var front := logs[..|logs| - 1];
      AddAllCounts(t, front);
      forall i | 0 <= i < |logs| - 1 ensures AddAll(t, logs).calls[i] == AddLog(logs[i]) {
        assert front[i] == logs[i];
      }
    }
  }
}

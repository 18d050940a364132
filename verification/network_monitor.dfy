/** `NetworkMonitor`: the map from category to tracker. Each log goes to its
    category's tracker, which is created on first use, and then every
    category is offered to the uploader for a flush. */
module NetworkMonitor {
  import opened TrafficLog
  import opened NetworkTracker
  import opened LogUploading

  datatype Monitor = Monitor(windowLength: int, alerter: Uploader, endpoints: map<string, Tracker>)

  /** The outcome of one `addLog`: the monitor after it, the uploads sent and
      every call made on the traffic persister, in order. */
  datatype Outcome = Outcome(monitor: Monitor, uploads: seq<Upload>, calls: seq<PersisterCall>)

  /** Every tracker is keyed by its own category and watches the monitor's window. */
  predicate Valid(m: Monitor) {
    forall k | k in m.endpoints :: m.endpoints[k].endpoint == k && m.endpoints[k].windowLength == m.windowLength
  }

  /** The constructor: no trackers yet, and an uploader over the same window
      that flushes at most every `clearIncrement`. */
  function NewMonitor(windowLength: int, clearIncrement: int): (m: Monitor)
    ensures Valid(m) && m.endpoints == map[]
    ensures m.windowLength == windowLength
    ensures m.alerter == NewUploader(windowLength, clearIncrement)
  {
    Monitor(windowLength, NewUploader(windowLength, clearIncrement), map[])
  }

  /** The first half of `addLog`: the log's category gets a tracker if it has
      none (seeded from the persister's answer `prior`), and that tracker
      adds the log. */
  function Track(m: Monitor, log: NetworkTrafficLog, prior: TrafficLogSummary): (r: Outcome)
    ensures r.monitor.windowLength == m.windowLength && r.monitor.alerter == m.alerter
    ensures r.monitor.endpoints.Keys == m.endpoints.Keys + {log.endpoint}
    ensures forall k | k in m.endpoints && k != log.endpoint :: r.monitor.endpoints[k] == m.endpoints[k]
    ensures r.uploads == []
    ensures log.endpoint in m.endpoints ==>
              && r.monitor.endpoints[log.endpoint] == AddLogAndPersist(m.endpoints[log.endpoint], log).tracker
              && r.calls == [AddLog(log)]
    ensures log.endpoint !in m.endpoints ==>
              && r.monitor.endpoints[log.endpoint]
                   == AddLogAndPersist(Tracker(log.endpoint, m.windowLength, prior.count, prior.size), log).tracker
              && r.calls == [GetSizeAndClear(m.windowLength, log.endpoint), AddLog(log)]
    ensures Valid(m) ==> Valid(r.monitor)
  {
    var created := NewTracker(log.endpoint, m.windowLength, prior);
    var start := if log.endpoint in m.endpoints then Effect(m.endpoints[log.endpoint], []) else created;
    var added := AddLogAndPersist(start.tracker, log);
    Outcome(m.(endpoints := m.endpoints[log.endpoint := added.tracker]), [], start.calls + added.calls)
  }

  /** `addLog`: track the log, then `registerLogs` over the whole map, whose
      iteration order is `order`. */
  function AddLogToMonitor(m: Monitor, log: NetworkTrafficLog, prior: TrafficLogSummary, order: seq<string>, now: int): (r: Outcome)
    requires Enumerates(order, m.endpoints.Keys + {log.endpoint})
    ensures var tracked := Track(m, log, prior).monitor;
            && r.monitor.windowLength == m.windowLength
            && r.monitor.endpoints.Keys == m.endpoints.Keys + {log.endpoint}
            && (Throttled(m.alerter, now) ==>
                  && r.monitor == tracked
                  && r.uploads == []
                  && r.calls == Track(m, log, prior).calls)
            && (!Throttled(m.alerter, now) ==>
                  && r.monitor.alerter == m.alerter.(lastTimeCleared := now)
                  && |r.uploads| > 0
                  && r.uploads[|r.uploads| - 1].endpoint == TOTAL
                  && |r.calls| >= |Track(m, log, prior).calls|
                  && r.calls[..|Track(m, log, prior).calls|] == Track(m, log, prior).calls)
  {
    var t := Track(m, log, prior);
    var f := RegisterLogs(t.monitor.alerter, t.monitor.endpoints, order, now);
    assert (t.calls + f.calls)[..|t.calls|] == t.calls;
    Outcome(Monitor(m.windowLength, f.uploader, f.trackers), f.uploads, t.calls + f.calls)
  }

  /** Tracking grows the request total of all categories by one for a
      request (and by nothing for a response), plus the persisted count a
      new category starts from. */
  lemma TrackCounts(m: Monitor, log: NetworkTrafficLog, prior: TrafficLogSummary)
    ensures var after := Track(m, log, prior).monitor.endpoints;
            Sum(after, after.Keys, CountOf)
              == Sum(m.endpoints, m.endpoints.Keys, CountOf)
                 + (if log.endpoint in m.endpoints then 0 else prior.count)
                 + (if log.isRequest then 1 else 0)
  {
    var after := Track(m, log, prior).monitor.endpoints;
    var e := log.endpoint;
    var rest := m.endpoints.Keys - {e};
    SumRemove(after, after.Keys, CountOf, e);
    assert after.Keys - {e} == rest;
    SumFrame(after, m.endpoints, rest, CountOf);
    if e in m.endpoints {
      SumRemove(m.endpoints, m.endpoints.Keys, CountOf, e);
    } else {
      assert rest == m.endpoints.Keys;
    }
  }

  /** The monitor's invariant survives `addLog`. */
  lemma AddLogKeepsValid(m: Monitor, log: NetworkTrafficLog, prior: TrafficLogSummary, order: seq<string>, now: int)
    requires Valid(m)
    requires Enumerates(order, m.endpoints.Keys + {log.endpoint})
    ensures Valid(AddLogToMonitor(m, log, prior, order, now).monitor)
  {
    var t := Track(m, log, prior).monitor;
    if !Throttled(m.alerter, now) {
      RegisterLogsClears(m.alerter, t.endpoints, order, now);
    }
  }

  /** No request is lost: when `addLog` flushes, the "total" upload reports
      every request counted since the previous flush, the new one included,
      and every category starts again from zero. */
  lemma AddLogReportsEveryRequest(m: Monitor, log: NetworkTrafficLog, prior: TrafficLogSummary, order: seq<string>, now: int)
    requires Enumerates(order, m.endpoints.Keys + {log.endpoint})
    requires !Throttled(m.alerter, now)
    ensures var r := AddLogToMonitor(m, log, prior, order, now);
            && r.uploads[|r.uploads| - 1].requests
                 == Sum(m.endpoints, m.endpoints.Keys, CountOf)
                    + (if log.endpoint in m.endpoints then 0 else prior.count)
                    + (if log.isRequest then 1 else 0)
            && (forall k | k in r.monitor.endpoints :: r.monitor.endpoints[k].requestCount == 0)
  {
    var t := Track(m, log, prior).monitor;
    RegisterLogsTotal(m.alerter, t.endpoints, order, now);
    RegisterLogsClears(m.alerter, t.endpoints, order, now);
    CountOverNonZero(t.endpoints, t.endpoints.Keys);
    TrackCounts(m, log, prior);
  }
}

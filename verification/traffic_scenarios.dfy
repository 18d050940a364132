/** The traffic accounting's unit-test scenarios, stated for the model: a
    tracker seeded from the persister and fed five logs, and the uploader's
    throttle over a clock that starts at 10 and jumps forward. The map's
    iteration order is left open wherever a flush runs. */
module TrafficScenarios {
  import opened TrafficLog
  import opened NetworkTracker
  import opened LogUploading

  /** `n` copies of one log. */
  function Repeat(log: NetworkTrafficLog, n: nat): (logs: seq<NetworkTrafficLog>)
    ensures |logs| == n && forall i | 0 <= i < n :: logs[i] == log
  {
    seq(n, _ => log)
  }

  lemma {:induction false} RepeatCounts(log: NetworkTrafficLog, n: nat)
    ensures Requests(Repeat(log, n)) == if log.isRequest then n else 0
    ensures Bytes(Repeat(log, n)) == n * log.size
    decreases n
  {
    if n > 0 {
      RepeatCounts(log, n - 1);
      assert Repeat(log, n)[..n - 1] == Repeat(log, n - 1);
    }
  }

  /** A tracker seeded with one request of one byte, then fed five logs of
      ten bytes: requests raise the count to six, responses leave it at one;
      the size is 51 either way. */
  lemma TracksRequestsAndResponses(isRequest: bool)
    ensures var seeded := NewTracker("test", 5000, TrafficLogSummary(1, 1)).tracker;
            var fed := AddAll(seeded, Repeat(NetworkTrafficLog(isRequest, "test", "test", 10, 1, 0), 5)).tracker;
            && fed.requestCount == (if isRequest then 6 else 1)
            && fed.requestSize == 51
  {
    var log := NetworkTrafficLog(isRequest, "test", "test", 10, 1, 0);
    var seeded := NewTracker("test", 5000, TrafficLogSummary(1, 1)).tracker;
    AddAllCounts(seeded, Repeat(log, 5));
    RepeatCounts(log, 5);
  }

  const Window: int := 9000
  const ClearIncrement: int := Window + 1

  /** Two trackers, both seeded with nothing. */
  const Setup: map<string, Tracker> := map["test" := Tracker("test", Window, 0, 0), "test2" := Tracker("test2", Window, 0, 0)]

  /** The test's request: two bytes, filed under "test" whichever tracker
      receives it. */
  const Request: NetworkTrafficLog := NetworkTrafficLog(true, "test", "test", 2, 1, 0)

  /** One step of the test: the named tracker adds the request, then the
      uploader is offered the whole map at time `now`. */
  function AddRequest(u: Uploader, trackers: map<string, Tracker>, name: string, order: seq<string>, now: int): (r: Flush)
    requires name in trackers && Enumerates(order, trackers.Keys)
    ensures r.trackers.Keys == trackers.Keys
  {
    RegisterLogs(u, trackers[name := AddLogAndPersist(trackers[name], Request).tracker], order, now)
  }

  /** A flush when exactly one category has a non-zero count: its summary,
      then a total equal to it. */
  lemma FlushOne(u: Uploader, trackers: map<string, Tracker>, order: seq<string>, now: int, k: string)
    requires Enumerates(order, trackers.Keys) && !Throttled(u, now)
    requires k in trackers && Emitted(trackers) == {k}
    ensures RegisterLogs(u, trackers, order, now).uploads
              == [Summary(trackers[k], u.windowLength, k),
                  Upload(trackers[k].requestSize, trackers[k].requestCount, u.windowLength, TOTAL)]
  {
    var r := RegisterLogs(u, trackers, order, now);
    RegisterLogsTotal(u, trackers, order, now);
    RegisterLogsEach(u, trackers, order, now);
    SumRemove(trackers, {k}, SizeOf, k);
    SumRemove(trackers, {k}, CountOf, k);
    assert r.uploads[..1][0] == r.uploads[0];
  }

  /** A flush when exactly two categories have a non-zero count: three
      uploads, the last the total of both. */
  lemma FlushTwo(u: Uploader, trackers: map<string, Tracker>, order: seq<string>, now: int, a: string, b: string)
    requires Enumerates(order, trackers.Keys) && !Throttled(u, now)
    requires a in trackers && b in trackers && a != b && Emitted(trackers) == {a, b}
    ensures var r := RegisterLogs(u, trackers, order, now);
            && |r.uploads| == 3
            && r.uploads[2] == Upload(trackers[a].requestSize + trackers[b].requestSize,
                                      trackers[a].requestCount + trackers[b].requestCount, u.windowLength, TOTAL)
  {
    RegisterLogsTotal(u, trackers, order, now);
    SumOfTwo(trackers, a, b, SizeOf);
    SumOfTwo(trackers, a, b, CountOf);
    assert |{a, b}| == 2;
  }

  lemma SumOfTwo(trackers: map<string, Tracker>, a: string, b: string, f: Tracker -> int)
    requires a in trackers && b in trackers && a != b
    ensures Sum(trackers, {a, b}, f) == f(trackers[a]) + f(trackers[b])
  {
    assert {a, b} - {a} == {b};
    SumRemove(trackers, {a, b}, f, a);
    SumRemove(trackers, {b}, f, b);
  }

  /** A flush of the two test trackers puts both back to their initial state. */
  lemma FlushRestoresSetup(u: Uploader, trackers: map<string, Tracker>, order: seq<string>, now: int)
    requires Enumerates(order, trackers.Keys) && !Throttled(u, now)
    requires trackers.Keys == Setup.Keys
    requires forall k | k in trackers :: trackers[k].endpoint == k && trackers[k].windowLength == Window
    requires forall k | k in trackers :: trackers[k].requestCount == 0 ==> trackers[k].requestSize == 0
    ensures RegisterLogs(u, trackers, order, now).trackers == Setup
  {
    RegisterLogsClears(u, trackers, order, now);
  }

  /** One request, flushed at once: one upload for "test" and one "total",
      each one request of two bytes. */
  lemma OneLogSentGetsRecorded(order: seq<string>)
    requires Enumerates(order, Setup.Keys)
    ensures var r := AddRequest(NewUploader(Window, Window), Setup, "test", order, 10);
            r.uploads == [Upload(2, 1, Window, "test"), Upload(2, 1, Window, TOTAL)]
  {
    var t := Setup["test" := Tracker("test", Window, 1, 2)];
    assert Setup["test" := AddLogAndPersist(Setup["test"], Request).tracker] == t;
    assert Emitted(t) == {"test"};
    FlushOne(NewUploader(Window, Window), t, order, 10, "test");
  }

  /** The uploader as the first flush, at time 10, leaves it. */
  const AfterFirst: Uploader := Uploader(Window, Window, 10)

  /** The first request, at time 10, flushes: two uploads, and both
      trackers are back where they started. */
  lemma FirstRequestFlushes(order: seq<string>)
    requires Enumerates(order, Setup.Keys)
    ensures var r := AddRequest(NewUploader(Window, Window), Setup, "test", order, 10);
            && r.uploader == AfterFirst
            && r.trackers == Setup
            && |r.uploads| == 2
  {
    var t := Setup["test" := Tracker("test", Window, 1, 2)];
    assert Setup["test" := AddLogAndPersist(Setup["test"], Request).tracker] == t;
    OneLogSentGetsRecorded(order);
    FlushRestoresSetup(NewUploader(Window, Window), t, order, 10);
  }

  /** A request half a clear increment later is only counted. */
  lemma SecondRequestThrottled(name: string, order: seq<string>)
    requires name in Setup && Enumerates(order, Setup.Keys)
    ensures var r := AddRequest(AfterFirst, Setup, name, order, 10 + ClearIncrement / 2);
            && r.uploader == AfterFirst
            && r.trackers == Setup[name := Tracker(name, Window, 1, 2)]
            && r.uploads == []
  {
  }

  /** Three requests at 10, 10 + 4500 and 10 + 4500 + 9001: the first and the
      last flush, the middle one is throttled; two uploads each time. */
  lemma AlertsOnlyAfterTimeExpires(o1: seq<string>, o2: seq<string>, o3: seq<string>)
    requires Enumerates(o1, Setup.Keys) && Enumerates(o2, Setup.Keys) && Enumerates(o3, Setup.Keys)
    ensures var r1 := AddRequest(NewUploader(Window, Window), Setup, "test", o1, 10);
            var r2 := AddRequest(r1.uploader, r1.trackers, "test", o2, 10 + ClearIncrement / 2);
            var r3 := AddRequest(r2.uploader, r2.trackers, "test", o3, 10 + ClearIncrement / 2 + ClearIncrement);
            && |r1.uploads| == 2
            && |r2.uploads| == 0
            && r3.uploads == [Upload(4, 2, Window, "test"), Upload(4, 2, Window, TOTAL)]
  {
    FirstRequestFlushes(o1);
    SecondRequestThrottled("test", o2);
    ThirdRequestSameCategory(o3);
  }

  lemma ThirdRequestSameCategory(order: seq<string>)
    requires Enumerates(order, Setup.Keys)
    ensures var r := AddRequest(AfterFirst, Setup["test" := Tracker("test", Window, 1, 2)], "test", order,
                                10 + ClearIncrement / 2 + ClearIncrement);
            r.uploads == [Upload(4, 2, Window, "test"), Upload(4, 2, Window, TOTAL)]
  {
    var before := Setup["test" := Tracker("test", Window, 1, 2)];
    var t := Setup["test" := Tracker("test", Window, 2, 4)];
    assert before["test" := AddLogAndPersist(before["test"], Request).tracker] == t;
    assert Emitted(t) == {"test"};
    FlushOne(AfterFirst, t, order, 10 + ClearIncrement / 2 + ClearIncrement, "test");
  }

  lemma ThirdRequestOtherCategory(order: seq<string>)
    requires Enumerates(order, Setup.Keys)
    ensures var r := AddRequest(AfterFirst, Setup["test2" := Tracker("test2", Window, 1, 2)], "test", order,
                                10 + ClearIncrement / 2 + ClearIncrement);
            && |r.uploads| == 3
            && r.uploads[2] == Upload(4, 2, Window, TOTAL)
  {
    var before := Setup["test2" := Tracker("test2", Window, 1, 2)];
    var t := before["test" := Tracker("test", Window, 1, 2)];
    assert before["test" := AddLogAndPersist(before["test"], Request).tracker] == t;
    assert t.Keys == {"test", "test2"};
    assert Emitted(t) == {"test", "test2"};
    FlushTwo(AfterFirst, t, order, 10 + ClearIncrement / 2 + ClearIncrement, "test", "test2");
  }

  /** As above, but the middle request goes to "test2": the last flush
      uploads both categories and the total, five uploads in all. */
  lemma TwoEndpointsSendAtCorrectTimes(o1: seq<string>, o2: seq<string>, o3: seq<string>)
    requires Enumerates(o1, Setup.Keys) && Enumerates(o2, Setup.Keys) && Enumerates(o3, Setup.Keys)
    ensures var r1 := AddRequest(NewUploader(Window, Window), Setup, "test", o1, 10);
            var r2 := AddRequest(r1.uploader, r1.trackers, "test2", o2, 10 + ClearIncrement / 2);
            var r3 := AddRequest(r2.uploader, r2.trackers, "test", o3, 10 + ClearIncrement / 2 + ClearIncrement);
            && |r1.uploads| + |r2.uploads| + |r3.uploads| == 5
            && r3.uploads[|r3.uploads| - 1] == Upload(4, 2, Window, TOTAL)
  {
    FirstRequestFlushes(o1);
    SecondRequestThrottled("test2", o2);
    ThirdRequestOtherCategory(o3);
  }
}

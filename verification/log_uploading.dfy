/** `LogUploadingManager`: the rate-limited flush of every category's
    counters to the summary sink, followed by one summary for all of them.

    The order in which the source's `HashMap` visits its entries is not
    specified, so it is an input: `order`, an enumeration of the map's keys.
    Every property below holds whatever that order is. */
module LogUploading {
  import opened TrafficLog
  import opened NetworkTracker

  /** The pseudo-category of the summary of all categories. */
  const TOTAL: string := "total"

  /** One call of `uploadTrafficLogSummaryForInterval(data, requests, interval, endpoint)`. */
  datatype Upload = Upload(data: int, requests: int, interval: int, endpoint: string)

  datatype Uploader = Uploader(windowLength: int, maxSendFrequency: int, lastTimeCleared: int)

  /** A flush: the uploader, the trackers after it, the uploads in the order
      sent and the trackers' persister calls. */
  datatype Flush = Flush(
    uploader: Uploader,
    trackers: map<string, Tracker>,
    uploads: seq<Upload>,
    calls: seq<PersisterCall>)

  /** `registerLogs` returns at once when the last flush was less than
      `maxSendFrequency` ago. */
  predicate Throttled(u: Uploader, now: int) {
    now - u.lastTimeCleared < u.maxSendFrequency
  }

  /** The constructor. The last flush is put `maxSendFrequency` in the past,
      so the first call at any non-negative time flushes. */
  function NewUploader(windowLength: int, maxSendFrequency: int): (u: Uploader)
    ensures u.windowLength == windowLength && u.maxSendFrequency == maxSendFrequency
    ensures forall now | now >= 0 :: !Throttled(u, now)
  {
    Uploader(windowLength, maxSendFrequency, -maxSendFrequency)
  }

  /** No key twice. */
  predicate Distinct(order: seq<string>) {
    forall i, j | 0 <= i < j < |order| :: order[i] != order[j]
  }

  /** `order` lists every key of the map exactly once. */
  predicate Enumerates(order: seq<string>, keys: set<string>) {
    Distinct(order) && (forall k | k in order :: k in keys) && (forall k | k in keys :: k in order)
  }

  function Members(order: seq<string>): set<string> {
    set k | k in order
  }

  /** The keys among `keys` whose tracker has a non-zero request count. */
  function NonZero(trackers: map<string, Tracker>, keys: set<string>): set<string> {
    set k | k in keys && k in trackers && trackers[k].requestCount != 0
  }

  /** The categories a flush reports on. */
  function Emitted(trackers: map<string, Tracker>): set<string> {
    NonZero(trackers, trackers.Keys)
  }

  /** The summary of one tracker as uploaded: its size, its count, the
      uploader's window, and the map key. */
  function Summary(t: Tracker, interval: int, key: string): Upload {
    Upload(t.requestSize, t.requestCount, interval, key)
  }

  function SizeOf(t: Tracker): int {
    t.requestSize
  }

  function CountOf(t: Tracker): int {
    t.requestCount
  }

  /** The sum of `f` over the trackers of a set of keys, in no particular order. */
  ghost function Sum(trackers: map<string, Tracker>, keys: set<string>, f: Tracker -> int): int
    requires keys <= trackers.Keys
    decreases keys
  {
    if keys == {} then 0
    else
      var k :| k in keys;
      f(trackers[k]) + Sum(trackers, keys - {k}, f)
  }

  /** Any key can be taken out of a sum first. */
  lemma {:induction false} SumRemove(trackers: map<string, Tracker>, keys: set<string>, f: Tracker -> int, k: string)
    requires keys <= trackers.Keys && k in keys
    ensures Sum(trackers, keys, f) == f(trackers[k]) + Sum(trackers, keys - {k}, f)
    decreases keys
  {
    var x :| x in keys && Sum(trackers, keys, f) == f(trackers[x]) + Sum(trackers, keys - {x}, f);
    if x != k {
      SumRemove(trackers, keys - {x}, f, k);
      SumRemove(trackers, keys - {k}, f, x);
      assert keys - {x} - {k} == keys - {k} - {x};
    }
  }

  /** A sum reads only the trackers of its keys. */
  lemma {:induction false} SumFrame(t1: map<string, Tracker>, t2: map<string, Tracker>, keys: set<string>, f: Tracker -> int)
    requires keys <= t1.Keys && keys <= t2.Keys
    requires forall k | k in keys :: t1[k] == t2[k]
    ensures Sum(t1, keys, f) == Sum(t2, keys, f)
    decreases keys
  {
    if keys != {} {
      var k :| k in keys;
      SumRemove(t1, keys, f, k);
      SumRemove(t2, keys, f, k);
      SumFrame(t1, t2, keys - {k}, f);
    }
  }

  /** Categories with a zero count add nothing to the request total: the sum
      of the counts over the categories with a non-zero count is the sum over
      all of them. */
  lemma {:induction false} CountOverNonZero(trackers: map<string, Tracker>, keys: set<string>)
    requires keys <= trackers.Keys
    ensures NonZero(trackers, keys) <= trackers.Keys
    ensures Sum(trackers, NonZero(trackers, keys), CountOf) == Sum(trackers, keys, CountOf)
    decreases keys
  {
    if keys != {} {
      var k :| k in keys;
      var rest := keys - {k};
      CountOverNonZero(trackers, rest);
      SumRemove(trackers, keys, CountOf, k);
      if trackers[k].requestCount != 0 {
        assert NonZero(trackers, keys) - {k} == NonZero(trackers, rest);
        SumRemove(trackers, NonZero(trackers, keys), CountOf, k);
      } else {
        assert NonZero(trackers, keys) == NonZero(trackers, rest);
      }
    }
  }

  /** The running state of the `forEach` loop. */
  datatype Pass = Pass(
    trackers: map<string, Tracker>,
    uploads: seq<Upload>,
    calls: seq<PersisterCall>,
    size: int,
    count: int)

  /** The body of the `forEach`, run over `order`: each key whose tracker has
      a non-zero count is added to the running totals and uploaded with its
      values as they are before the clear, and only then cleared; other keys
      are skipped. */
  function FlushEach(trackers: map<string, Tracker>, order: seq<string>, interval: int): (r: Pass)
    requires forall k | k in order :: k in trackers
    ensures r.trackers.Keys == trackers.Keys
    ensures forall k | k in trackers && k !in order :: r.trackers[k] == trackers[k]
    decreases |order|
  {
    if order == [] then Pass(trackers, [], [], 0, 0)
    else
      var key := order[|order| - 1];
      var p := FlushEach(trackers, order[..|order| - 1], interval);
      var tracker := p.trackers[key];
      if tracker.requestCount != 0 then
        var size := p.size + tracker.requestSize;
        var count := p.count + tracker.requestCount;
        var upload := Upload(tracker.requestSize, tracker.requestCount, interval, key);
        var cleared := ClearLog(tracker);
        Pass(p.trackers[key := cleared.tracker], p.uploads + [upload], p.calls + cleared.calls, size, count)
      else
        p
  }

  /** Reference definition: the keys of `order` whose tracker has a non-zero
      count, in the same order. */
  function Kept(trackers: map<string, Tracker>, order: seq<string>): seq<string>
    decreases |order|
  {
    if order == [] then []
    else
      var key := order[|order| - 1];
      Kept(trackers, order[..|order| - 1])
        + (if key in trackers && trackers[key].requestCount != 0 then [key] else [])
  }

  /** The uploads for a list of keys, from the given trackers. */
  function Summaries(trackers: map<string, Tracker>, keys: seq<string>, interval: int): seq<Upload>
    requires forall k | k in keys :: k in trackers
  {
    seq(|keys|, i requires 0 <= i < |keys| => Summary(trackers[keys[i]], interval, keys[i]))
  }

  /** The persister calls that clearing the trackers of a list of keys makes. */
  function Clears(trackers: map<string, Tracker>, keys: seq<string>): seq<PersisterCall>
    requires forall k | k in keys :: k in trackers
  {
    seq(|keys|, i requires 0 <= i < |keys| => Clear(trackers[keys[i]].windowLength, trackers[keys[i]].endpoint))
  }

  /** The sum of `f` over the trackers of a list of keys. */
  function SeqSum(trackers: map<string, Tracker>, keys: seq<string>, f: Tracker -> int): int
    requires forall k | k in keys :: k in trackers
    decreases |keys|
  {
    if keys == [] then 0 else SeqSum(trackers, keys[..|keys| - 1], f) + f(trackers[keys[|keys| - 1]])
  }

  lemma {:induction false} KeptIsSubsequence(trackers: map<string, Tracker>, order: seq<string>)
    ensures forall k | k in Kept(trackers, order) :: k in order && k in trackers && trackers[k].requestCount != 0
    decreases |order|
  {
    if order != [] {
      var front := order[..|order| - 1];
      KeptIsSubsequence(trackers, front);
      forall k | k in Kept(trackers, order) ensures k in order {
        if k in Kept(trackers, front) {
          var i :| 0 <= i < |front| && front[i] == k;
          assert order[i] == k;
        }
      }
    }
  }

  /** The trackers after the loop: those of kept keys cleared, all others as
      they were. */
  lemma {:induction false} FlushEachTrackers(trackers: map<string, Tracker>, order: seq<string>, interval: int)
    requires Distinct(order) && forall k | k in order :: k in trackers
    ensures var r := FlushEach(trackers, order, interval);
            forall k | k in trackers ::
              r.trackers[k] == if k in order && trackers[k].requestCount != 0 then ClearLog(trackers[k]).tracker else trackers[k]
    decreases |order|
  {
    if order != [] {
      var front := order[..|order| - 1];
      var key := order[|order| - 1];
      DistinctFront(order);
      FlushEachTrackers(trackers, front, interval);
      forall k | k in trackers && k in order && k != key ensures k in front {
        var i :| 0 <= i < |order| && order[i] == k;
        assert front[i] == k;
      }
    }
  }

  lemma DistinctFront(order: seq<string>)
    requires |order| > 0 && Distinct(order)
    ensures Distinct(order[..|order| - 1]) && order[|order| - 1] !in order[..|order| - 1]
  {
    var front := order[..|order| - 1];
    forall i | 0 <= i < |front| ensures front[i] != order[|order| - 1] {
      assert front[i] == order[i];
    }
  }

  lemma SummariesSnoc(trackers: map<string, Tracker>, keys: seq<string>, key: string, interval: int)
    requires key in trackers && forall k | k in keys :: k in trackers
    ensures Summaries(trackers, keys + [key], interval) == Summaries(trackers, keys, interval) + [Summary(trackers[key], interval, key)]
    ensures Clears(trackers, keys + [key]) == Clears(trackers, keys) + [Clear(trackers[key].windowLength, trackers[key].endpoint)]
  {
  }

  /** The loop's uploads and persister calls are those of the kept keys,
      read from the trackers as they were before the loop. */
  lemma {:induction false} FlushEachUploads(trackers: map<string, Tracker>, order: seq<string>, interval: int)
    requires Distinct(order) && forall k | k in order :: k in trackers
    ensures forall k | k in Kept(trackers, order) :: k in trackers
    ensures var r := FlushEach(trackers, order, interval);
            && r.uploads == Summaries(trackers, Kept(trackers, order), interval)
            && r.calls == Clears(trackers, Kept(trackers, order))
    decreases |order|
  {
    KeptIsSubsequence(trackers, order);
    if order != [] {
      var front := order[..|order| - 1];
      var key := order[|order| - 1];
      DistinctFront(order);
      FlushEachUploads(trackers, front, interval);
      FlushEachTrackers(trackers, front, interval);
      KeptIsSubsequence(trackers, front);
      var p := FlushEach(trackers, front, interval);
      var r := FlushEach(trackers, order, interval);
      assert p.trackers[key] == trackers[key];
      if trackers[key].requestCount != 0 {
        assert r.uploads == p.uploads + [Summary(trackers[key], interval, key)];
        assert r.calls == p.calls + [Clear(trackers[key].windowLength, trackers[key].endpoint)];
        assert Kept(trackers, order) == Kept(trackers, front) + [key];
        SummariesSnoc(trackers, Kept(trackers, front), key, interval);
      } else {
        assert r == p;
        assert Kept(trackers, order) == Kept(trackers, front);
      }
    }
  }

  lemma SeqSumSnoc(trackers: map<string, Tracker>, keys: seq<string>, key: string, f: Tracker -> int)
    requires key in trackers && forall k | k in keys :: k in trackers
    ensures SeqSum(trackers, keys + [key], f) == SeqSum(trackers, keys, f) + f(trackers[key])
  {
    assert (keys + [key])[..|keys|] == keys;
  }

  /** The loop's running totals are the sums over the kept keys. */
  lemma {:induction false} FlushEachTotals(trackers: map<string, Tracker>, order: seq<string>, interval: int)
    requires Distinct(order) && forall k | k in order :: k in trackers
    ensures forall k | k in Kept(trackers, order) :: k in trackers
    ensures var r := FlushEach(trackers, order, interval);
            && r.size == SeqSum(trackers, Kept(trackers, order), SizeOf)
            && r.count == SeqSum(trackers, Kept(trackers, order), CountOf)
    decreases |order|
  {
    KeptIsSubsequence(trackers, order);
    if order != [] {
      var front := order[..|order| - 1];
      var key := order[|order| - 1];
      DistinctFront(order);
      FlushEachTotals(trackers, front, interval);
      FlushEachTrackers(trackers, front, interval);
      KeptIsSubsequence(trackers, front);
      var p := FlushEach(trackers, front, interval);
      var r := FlushEach(trackers, order, interval);
      assert p.trackers[key] == trackers[key];
      var kf := Kept(trackers, front);
      if trackers[key].requestCount != 0 {
        assert r.size == p.size + trackers[key].requestSize;
        assert r.count == p.count + trackers[key].requestCount;
        assert Kept(trackers, order) == kf + [key];
        SeqSumSnoc(trackers, kf, key, SizeOf);
        SeqSumSnoc(trackers, kf, key, CountOf);
      } else {
        assert r == p;
        assert Kept(trackers, order) == kf;
      }
    }
  }

  /** The kept keys are distinct and are exactly the listed keys with a
      non-zero count. */
  lemma {:induction false} KeptMembers(trackers: map<string, Tracker>, order: seq<string>)
    requires Distinct(order)
    ensures Distinct(Kept(trackers, order))
    ensures Members(Kept(trackers, order)) == NonZero(trackers, Members(order))
    decreases |order|
  {
    if order != [] {
      var front := order[..|order| - 1];
      var key := order[|order| - 1];
      DistinctFront(order);
      KeptMembers(trackers, front);
      KeptIsSubsequence(trackers, front);
      assert Members(order) == Members(front) + {key} by {
        assert order == front + [key];
      }
      var kf := Kept(trackers, front);
      if key in trackers && trackers[key].requestCount != 0 {
        var kept := kf + [key];
        assert Kept(trackers, order) == kept;
        assert Members(kept) == Members(kf) + {key};
        assert NonZero(trackers, Members(order)) == NonZero(trackers, Members(front)) + {key};
        forall i, j | 0 <= i < j < |kept| ensures kept[i] != kept[j] {
          if j == |kept| - 1 {
            assert kept[i] == kf[i];
            assert kf[i] in kf;
          }
        }
      } else {
        assert NonZero(trackers, Members(order)) == NonZero(trackers, Members(front));
      }
    }
  }

  /** A distinct list has as many members as elements. */
  lemma {:induction false} DistinctCard(keys: seq<string>)
    requires Distinct(keys)
    ensures |Members(keys)| == |keys|
    decreases |keys|
  {
    if keys != [] {
      var front := keys[..|keys| - 1];
      DistinctFront(keys);
      DistinctCard(front);
      assert Members(keys) == Members(front) + {keys[|keys| - 1]} by {
        assert keys == front + [keys[|keys| - 1]];
      }
    }
  }

  /** Summing along a distinct list is summing over its set of members. */
  lemma {:induction false} SeqSumIsSum(trackers: map<string, Tracker>, keys: seq<string>, f: Tracker -> int)
    requires Distinct(keys) && forall k | k in keys :: k in trackers
    ensures Members(keys) <= trackers.Keys
    ensures SeqSum(trackers, keys, f) == Sum(trackers, Members(keys), f)
    decreases |keys|
  {
    if keys != [] {
      var front := keys[..|keys| - 1];
      var key := keys[|keys| - 1];
      DistinctFront(keys);
      SeqSumIsSum(trackers, front, f);
      assert Members(keys) == Members(front) + {key} by {
        assert keys == front + [key];
      }
      SumRemove(trackers, Members(keys), f, key);
      assert Members(keys) - {key} == Members(front);
    }
  }

  /** `registerLogs`: nothing when throttled; otherwise the loop over the
      map, then the "total" upload from the loop's totals, then a clear of
      the tracker keyed "total" if there is one. */
  function RegisterLogs(u: Uploader, trackers: map<string, Tracker>, order: seq<string>, now: int): (r: Flush)
    requires Enumerates(order, trackers.Keys)
    ensures Throttled(u, now) ==> r == Flush(u, trackers, [], [])
    ensures !Throttled(u, now) ==>
              && r.uploader == u.(lastTimeCleared := now)
              && r.trackers.Keys == trackers.Keys
              && |r.uploads| > 0
              && r.uploads[|r.uploads| - 1].endpoint == TOTAL
              && r.uploads[|r.uploads| - 1].interval == u.windowLength
  {
    if now - u.lastTimeCleared < u.maxSendFrequency then
      Flush(u, trackers, [], [])
    else
      var p := FlushEach(trackers, order, u.windowLength);
      var uploads := p.uploads + [Upload(p.size, p.count, u.windowLength, TOTAL)];
      if TOTAL in p.trackers then
        var cleared := ClearLog(p.trackers[TOTAL]);
        Flush(u.(lastTimeCleared := now), p.trackers[TOTAL := cleared.tracker], uploads, p.calls + cleared.calls)
      else
        Flush(u.(lastTimeCleared := now), p.trackers, uploads, p.calls)
  }

  /** The loop over an enumeration of the map, in terms of the kept keys:
      they are the emitted categories, each once; the loop uploads and clears
      them in that order and sums their values from before the loop. */
  lemma FlushEachEmits(trackers: map<string, Tracker>, order: seq<string>, interval: int)
    requires Enumerates(order, trackers.Keys)
    ensures Emitted(trackers) <= trackers.Keys
    ensures var kept := Kept(trackers, order);
            && Distinct(kept)
            && Members(kept) == Emitted(trackers)
            && |kept| == |Emitted(trackers)|
            && (forall k | k in kept :: k in trackers)
    ensures var p := FlushEach(trackers, order, interval);
            var kept := Kept(trackers, order);
            && p.uploads == Summaries(trackers, kept, interval)
            && p.calls == Clears(trackers, kept)
            && p.size == Sum(trackers, Emitted(trackers), SizeOf)
            && p.count == Sum(trackers, Emitted(trackers), CountOf)
            && (forall k | k in trackers ::
                  p.trackers[k] == if k in Emitted(trackers) then ClearLog(trackers[k]).tracker else trackers[k])
  {
    var kept := Kept(trackers, order);
    assert Members(order) == trackers.Keys;
    FlushEachTrackers(trackers, order, interval);
    FlushEachUploads(trackers, order, interval);
    FlushEachTotals(trackers, order, interval);
    KeptMembers(trackers, order);
    DistinctCard(kept);
    SeqSumIsSum(trackers, kept, SizeOf);
    SeqSumIsSum(trackers, kept, CountOf);
  }

  /** An unthrottled flush is the loop, then the "total" upload, then the
      clear of a tracker keyed "total". */
  lemma RegisterLogsUnfold(u: Uploader, trackers: map<string, Tracker>, order: seq<string>, now: int)
    requires Enumerates(order, trackers.Keys)
    requires !Throttled(u, now)
    ensures var r := RegisterLogs(u, trackers, order, now);
            var p := FlushEach(trackers, order, u.windowLength);
            && p.trackers.Keys == trackers.Keys
            && r.uploads == p.uploads + [Upload(p.size, p.count, u.windowLength, TOTAL)]
            && r.calls == p.calls + (if TOTAL in trackers then ClearLog(p.trackers[TOTAL]).calls else [])
            && r.trackers == (if TOTAL in trackers then p.trackers[TOTAL := ClearLog(p.trackers[TOTAL]).tracker] else p.trackers)
  {
  }

  /** `each` holds the summary of every category with a non-zero count,
      once each, with the values of `trackers`, and nothing else. */
  predicate EachOnce(trackers: map<string, Tracker>, interval: int, each: seq<Upload>)
    requires Emitted(trackers) <= trackers.Keys
  {
    && (forall i | 0 <= i < |each| ::
          && each[i].endpoint in Emitted(trackers)
          && each[i] == Summary(trackers[each[i].endpoint], interval, each[i].endpoint))
    && (forall i, j | 0 <= i < j < |each| :: each[i].endpoint != each[j].endpoint)
    && (forall k | k in Emitted(trackers) :: Summary(trackers[k], interval, k) in each)
  }

  /** The uploads of a distinct list of the emitted keys hold each emitted
      category's summary once. */
  lemma SummariesOfDistinct(trackers: map<string, Tracker>, keys: seq<string>, interval: int)
    requires Distinct(keys) && Members(keys) == Emitted(trackers) && Emitted(trackers) <= trackers.Keys
    requires forall k | k in keys :: k in trackers
    ensures EachOnce(trackers, interval, Summaries(trackers, keys, interval))
  {
    var ups := Summaries(trackers, keys, interval);
    forall k | k in Emitted(trackers) ensures Summary(trackers[k], interval, k) in ups {
      var i :| 0 <= i < |keys| && keys[i] == k;
      assert ups[i] == Summary(trackers[k], interval, k);
    }
  }

  /** What a flush uploads last, whatever the iteration order: after one
      upload per category with a non-zero count, the "total" summary, whose
      size and count are the sums over those categories, even when they are
      zero. */
  lemma RegisterLogsTotal(u: Uploader, trackers: map<string, Tracker>, order: seq<string>, now: int)
    requires Enumerates(order, trackers.Keys)
    requires !Throttled(u, now)
    ensures Emitted(trackers) <= trackers.Keys
    ensures var r := RegisterLogs(u, trackers, order, now);
            && |r.uploads| == |Emitted(trackers)| + 1
            && r.uploads[|r.uploads| - 1]
                 == Upload(Sum(trackers, Emitted(trackers), SizeOf), Sum(trackers, Emitted(trackers), CountOf),
                           u.windowLength, TOTAL)
  {
    FlushEachEmits(trackers, order, u.windowLength);
    RegisterLogsUnfold(u, trackers, order, now);
  }

  /** What a flush uploads before the total, whatever the iteration order:
      every category with a non-zero count exactly once, with its values
      from before the flush, and nothing else. */
  lemma RegisterLogsEach(u: Uploader, trackers: map<string, Tracker>, order: seq<string>, now: int)
    requires Enumerates(order, trackers.Keys)
    requires !Throttled(u, now)
    ensures Emitted(trackers) <= trackers.Keys
    ensures var r := RegisterLogs(u, trackers, order, now);
            && |r.uploads| > 0
            && EachOnce(trackers, u.windowLength, r.uploads[..|r.uploads| - 1])
  {
    var r := RegisterLogs(u, trackers, order, now);
    var p := FlushEach(trackers, order, u.windowLength);
    var kept := Kept(trackers, order);
    assert Members(order) == trackers.Keys;
    KeptMembers(trackers, order);
    KeptIsSubsequence(trackers, order);
    SummariesOfDistinct(trackers, kept, u.windowLength);
    FlushEachUploads(trackers, order, u.windowLength);
    RegisterLogsUnfold(u, trackers, order, now);
    assert r.uploads[..|r.uploads| - 1] == p.uploads;
  }

  /** The clears of a list of keys: one per key, for each key's tracker. */
  lemma ClearsOfKeys(trackers: map<string, Tracker>, keys: seq<string>)
    requires forall k | k in keys :: k in trackers
    ensures |Clears(trackers, keys)| == |keys|
    ensures forall k | k in Members(keys) :: Clear(trackers[k].windowLength, trackers[k].endpoint) in Clears(trackers, keys)
  {
    var cs := Clears(trackers, keys);
    forall k | k in Members(keys) ensures Clear(trackers[k].windowLength, trackers[k].endpoint) in cs {
      var i :| 0 <= i < |keys| && keys[i] == k;
      assert cs[i] == Clear(trackers[k].windowLength, trackers[k].endpoint);
    }
  }

  /** What a flush leaves behind: the uploaded categories cleared, and the
      tracker keyed "total" too if there is one; every other tracker as it
      was; every count zero; one persister clear per uploaded category, plus
      one for "total". */
  lemma RegisterLogsClears(u: Uploader, trackers: map<string, Tracker>, order: seq<string>, now: int)
    requires Enumerates(order, trackers.Keys)
    requires !Throttled(u, now)
    ensures var r := RegisterLogs(u, trackers, order, now);
            && (forall k | k in trackers ::
                  r.trackers[k] == if k in Emitted(trackers) || k == TOTAL then ClearLog(trackers[k]).tracker else trackers[k])
            && (forall k | k in r.trackers :: r.trackers[k].requestCount == 0)
            && (forall k | k in Emitted(trackers) :: Clear(trackers[k].windowLength, trackers[k].endpoint) in r.calls)
            && |r.calls| == |Emitted(trackers)| + (if TOTAL in trackers then 1 else 0)
  {
    var r := RegisterLogs(u, trackers, order, now);
    var p := FlushEach(trackers, order, u.windowLength);
    var kept := Kept(trackers, order);
    FlushEachEmits(trackers, order, u.windowLength);
    RegisterLogsUnfold(u, trackers, order, now);
    ClearsOfKeys(trackers, kept);
    if TOTAL in trackers {
      ClearIdempotent(trackers[TOTAL]);
      assert r.trackers[TOTAL] == ClearLog(trackers[TOTAL]).tracker;
    }
    forall k | k in trackers
      ensures r.trackers[k] == if k in Emitted(trackers) || k == TOTAL then ClearLog(trackers[k]).tracker else trackers[k]
    {
      if k != TOTAL {
        assert r.trackers[k] == p.trackers[k];
      }
    }
    forall k | k in Emitted(trackers) ensures Clear(trackers[k].windowLength, trackers[k].endpoint) in r.calls {
      assert Clear(trackers[k].windowLength, trackers[k].endpoint) in p.calls;
    }
  }

  /** The map's iteration order changes nothing but the order of the
      per-category uploads: the same uploads are sent (each once), the same
      "total" comes last, and the trackers end the same. */
  lemma FlushIgnoresOrder(u: Uploader, trackers: map<string, Tracker>, o1: seq<string>, o2: seq<string>, now: int)
    requires Enumerates(o1, trackers.Keys) && Enumerates(o2, trackers.Keys)
    ensures var r1 := RegisterLogs(u, trackers, o1, now);
            var r2 := RegisterLogs(u, trackers, o2, now);
            && r1.uploader == r2.uploader
            && r1.trackers == r2.trackers
            && |r1.uploads| == |r2.uploads|
            && (set x | x in r1.uploads) == (set x | x in r2.uploads)
            && (|r1.uploads| > 0 ==> r1.uploads[|r1.uploads| - 1] == r2.uploads[|r2.uploads| - 1])
  {
    if !Throttled(u, now) {
      OrderKeepsTrackers(u, trackers, o1, o2, now);
      OrderKeepsUploads(u, trackers, o1, o2, now);
    }
  }

  lemma OrderKeepsTrackers(u: Uploader, trackers: map<string, Tracker>, o1: seq<string>, o2: seq<string>, now: int)
    requires Enumerates(o1, trackers.Keys) && Enumerates(o2, trackers.Keys)
    requires !Throttled(u, now)
    ensures RegisterLogs(u, trackers, o1, now).trackers == RegisterLogs(u, trackers, o2, now).trackers
  {
    RegisterLogsClears(u, trackers, o1, now);
    RegisterLogsClears(u, trackers, o2, now);
  }

  lemma OrderKeepsUploads(u: Uploader, trackers: map<string, Tracker>, o1: seq<string>, o2: seq<string>, now: int)
    requires Enumerates(o1, trackers.Keys) && Enumerates(o2, trackers.Keys)
    requires !Throttled(u, now)
    ensures var r1 := RegisterLogs(u, trackers, o1, now);
            var r2 := RegisterLogs(u, trackers, o2, now);
            && |r1.uploads| == |r2.uploads|
            && (set x | x in r1.uploads) == (set x | x in r2.uploads)
            && r1.uploads[|r1.uploads| - 1] == r2.uploads[|r2.uploads| - 1]
  {
    var r1 := RegisterLogs(u, trackers, o1, now);
    var r2 := RegisterLogs(u, trackers, o2, now);
    RegisterLogsTotal(u, trackers, o1, now);
    RegisterLogsTotal(u, trackers, o2, now);
    RegisterLogsEach(u, trackers, o1, now);
    RegisterLogsEach(u, trackers, o2, now);
    var n := |r1.uploads|;
    SameUploads(trackers, u.windowLength, r1.uploads[..n - 1], r2.uploads[..n - 1]);
    assert r1.uploads == r1.uploads[..n - 1] + [r1.uploads[n - 1]];
    assert r2.uploads == r2.uploads[..n - 1] + [r2.uploads[n - 1]];
  }

  /** Two upload lists that each hold exactly the summaries of the emitted
      categories hold the same uploads. */
  lemma SameUploads(trackers: map<string, Tracker>, interval: int, e1: seq<Upload>, e2: seq<Upload>)
    requires Emitted(trackers) <= trackers.Keys
    requires EachOnce(trackers, interval, e1) && EachOnce(trackers, interval, e2)
    ensures (set x | x in e1) == (set x | x in e2)
  {
    forall x | x in e1 ensures x in e2 {
      var i :| 0 <= i < |e1| && e1[i] == x;
    }
    forall x | x in e2 ensures x in e1 {
      var i :| 0 <= i < |e2| && e2[i] == x;
    }
  }
}

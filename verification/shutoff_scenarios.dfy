/** The unit-test scenarios of the shutoff manager, stated for every jitter
    the default randomizer can draw and every throttle coin. The clock does
    not move between the steps of a scenario unless stated. */
module ShutoffScenarios {
  import opened Wrappers
  import opened ShutoffConfig
  import opened ShutoffLog
  import opened CategoryShutoff
  import opened ShutoffManager

  /** Five-minute increments, at most eight of them, a 1-in-10 throttle,
      556 for a global and 555 for an endpoint shutoff, five minutes of spread. */
  const TestConfig: Config := Config(300000, 8, 10, 556, 555, 300000)

  /** A manager over an empty persister. */
  const Fresh: Manager := Manager(TestConfig, None, map[], Empty)

  /** Constructing a manager over an empty persister gives `Fresh`, and a
      fresh manager admits traffic for any category. */
  lemma FreshManagerAdmits(endpoint: string, now: int, c1: bool, c2: bool)
    ensures Init(TestConfig, Empty) == Success(Fresh)
    ensures var q := ShutoffManager.ShouldDropRequest(Fresh, endpoint, now, c1, c2);
            q.Success? && !q.value.value
  {
    assert GetAll(Empty) - {GLOBAL} == {};
  }

  /** A 555 for "test" blocks "test" and leaves "test2" flowing. */
  lemma EndpointFailureBlocksOnlyThatEndpoint(now: int, jitter: int, c1: bool, c2: bool, c3: bool, c4: bool)
    requires ValidJitter(TestConfig, jitter)
    ensures var r := DetermineShutoffStatusFromRequest(Fresh, Some(555), "test", now, jitter);
            && r.Success?
            && (var q := ShutoffManager.ShouldDropRequest(r.value, "test", now, c1, c2); q.Success? && q.value.value)
            && (var q := ShutoffManager.ShouldDropRequest(r.value, "test2", now, c3, c4); q.Success? && !q.value.value)
  {
    var r := DetermineShutoffStatusFromRequest(Fresh, Some(555), "test", now, jitter);
    assert r == SetEndpointSpecificShutoff(Fresh, "test", now, jitter);
    assert "global" !in GetAll(r.value.store);
    assert "test2" !in r.value.endpoints;
  }

  /** A 556 blocks the category it came from and every other one. */
  lemma GlobalFailureBlocksAllEndpoints(now: int, jitter: int, c1: bool, c2: bool, c3: bool, c4: bool)
    requires ValidJitter(TestConfig, jitter)
    ensures var r := DetermineShutoffStatusFromRequest(Fresh, Some(556), "test", now, jitter);
            && r.Success?
            && (var q := ShutoffManager.ShouldDropRequest(r.value, "test", now, c1, c2); q.Success? && q.value.value)
            && (var q := ShutoffManager.ShouldDropRequest(r.value, "test2", now, c3, c4); q.Success? && q.value.value)
  {
    var r := DetermineShutoffStatusFromRequest(Fresh, Some(556), "test", now, jitter);
    GlobalBlockDropsEveryCategory(r.value, "test", now, c1, c2);
    GlobalBlockDropsEveryCategory(r.value, "test2", now, c3, c4);
  }

  /** 555 and then 556 for "test", then a 200 for "test2": the global block is
      lifted, so "test2" flows, but "test" stays blocked by its own shutoff. */
  lemma ClearingGlobalKeepsEndpointBlock(now: int, j1: int, j2: int, j3: int, c1: bool, c2: bool, c3: bool, c4: bool)
    requires ValidJitter(TestConfig, j1) && ValidJitter(TestConfig, j2)
    ensures var r1 := DetermineShutoffStatusFromRequest(Fresh, Some(555), "test", now, j1);
            r1.Success? &&
            var r2 := DetermineShutoffStatusFromRequest(r1.value, Some(556), "test", now, j2);
            r2.Success? &&
            var r3 := DetermineShutoffStatusFromRequest(r2.value, Some(200), "test2", now, j3);
            r3.Success? &&
            var q1 := ShutoffManager.ShouldDropRequest(r3.value, "test", now, c1, c2);
            q1.Success? && q1.value.value &&
            var q2 := ShutoffManager.ShouldDropRequest(q1.value.manager, "test2", now, c3, c4);
            q2.Success? && !q2.value.value
  {
    FreshManagerAdmits("test", now, false, false);
    var r1 := DetermineShutoffStatusFromRequest(Fresh, Some(555), "test", now, j1);
    DetermineKeepsSync(Fresh, Some(555), "test", now, j1);
    var r2 := DetermineShutoffStatusFromRequest(r1.value, Some(556), "test", now, j2);
    DetermineKeepsSync(r1.value, Some(556), "test", now, j2);
    SuccessOnOtherCategory(r2.value, "test", "test2", 200, now, j3, c1, c2, c3, c4);
    var r3 := DetermineShutoffStatusFromRequest(r2.value, Some(200), "test2", now, j3);
    assert "test2" !in r3.value.endpoints;
  }

  /** 555 for "test" and then for "test2": both are shut off until after
      `now`, and the persister stays in step. */
  lemma BothEndpointsShutOff(now: int, j1: int, j2: int)
    requires ValidJitter(TestConfig, j1) && ValidJitter(TestConfig, j2)
    ensures var r1 := DetermineShutoffStatusFromRequest(Fresh, Some(555), "test", now, j1);
            r1.Success? &&
            var r2 := DetermineShutoffStatusFromRequest(r1.value, Some(555), "test2", now, j2);
            && r2.Success?
            && Synced(r2.value)
            && GlobalShutoff(r2.value).Success?
            && "test2" in r2.value.endpoints
            && r2.value.endpoints["test2"].state == Shutoff
            && now < r2.value.endpoints["test2"].shutOffUntil
  {
    FreshManagerAdmits("test", now, false, false);
    var r1 := DetermineShutoffStatusFromRequest(Fresh, Some(555), "test", now, j1);
    DetermineKeepsSync(Fresh, Some(555), "test", now, j1);
    var r2 := DetermineShutoffStatusFromRequest(r1.value, Some(555), "test2", now, j2);
    DetermineKeepsSync(r1.value, Some(555), "test2", now, j2);
  }

  /** 555 for "test" and for "test2", then a 200 for "test": only "test2"
      stays blocked. */
  lemma ClearingOneEndpointKeepsTheOther(now: int, j1: int, j2: int, j3: int, c1: bool, c2: bool, c3: bool, c4: bool)
    requires ValidJitter(TestConfig, j1) && ValidJitter(TestConfig, j2)
    ensures var r1 := DetermineShutoffStatusFromRequest(Fresh, Some(555), "test", now, j1);
            r1.Success? &&
            var r2 := DetermineShutoffStatusFromRequest(r1.value, Some(555), "test2", now, j2);
            r2.Success? &&
            var r3 := DetermineShutoffStatusFromRequest(r2.value, Some(200), "test", now, j3);
            r3.Success? &&
            var q1 := ShutoffManager.ShouldDropRequest(r3.value, "test", now, c1, c2);
            q1.Success? && !q1.value.value &&
            var q2 := ShutoffManager.ShouldDropRequest(q1.value.manager, "test2", now, c3, c4);
            q2.Success? && q2.value.value
  {
    BothEndpointsShutOff(now, j1, j2);
    var r1 := DetermineShutoffStatusFromRequest(Fresh, Some(555), "test", now, j1);
    var r2 := DetermineShutoffStatusFromRequest(r1.value, Some(555), "test2", now, j2);
    SuccessOnOtherCategory(r2.value, "test2", "test", 200, now, j3, c3, c4, c1, c2);
    var r3 := DetermineShutoffStatusFromRequest(r2.value, Some(200), "test", now, j3);
    var q1 := ShutoffManager.ShouldDropRequest(r3.value, "test", now, c1, c2);
    assert q1.value.manager.endpoints["test2"] == r3.value.endpoints["test2"];
    assert EndpointDrops(q1.value.manager, "test2", now, c3);
  }

  /** The reported error code: 556 by default, 555 while a global block
      drops (the codes are reported crosswise, as written). */
  lemma ErrorCodes(now: int, jitter: int, c1: bool, c2: bool)
    requires ValidJitter(TestConfig, jitter)
    ensures var e := GetErrorCodeForResponse(Fresh, now, c1); e.Success? && e.value.value == 556
    ensures var r := DetermineShutoffStatusFromRequest(Fresh, Some(556), "test", now, jitter);
            r.Success? &&
            var e := GetErrorCodeForResponse(r.value, now, c2);
            e.Success? && e.value.value == 555
  {
  }
}

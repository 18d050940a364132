/** `NetworkShutoffManager`: routes response codes and drop queries to one
    global category and a registry of per-endpoint categories.

    The global category is created lazily in the source, so here it is
    `None` until an operation first needs it and is then restored from the
    persister as it stands at that moment. Restoring can fail on an unknown
    label, so every operation that may restore returns a `Result`. */
module ShutoffManager {
  import opened Wrappers
  import opened ShutoffConfig
  import opened ShutoffLog
  import opened CategoryShutoff

  /** The reserved key of the category covering all traffic. */
  const GLOBAL: string := "global"

  datatype Manager = Manager(
    config: Config,
    global: Option<Category>,
    endpoints: map<string, Category>,
    store: Persister)

  /** A query's answer and the manager after the query's side effects. */
  datatype Answer<+T> = Answer(value: T, manager: Manager)

  /** Each registry entry is named by its key, no entry collides with the
      global key, and the global category is named by it. */
  ghost predicate Valid(m: Manager) {
    && (forall k | k in m.endpoints :: m.endpoints[k].endpoint == k)
    && GLOBAL !in m.endpoints
    && (m.global.Some? ==> m.global.value.endpoint == GLOBAL)
  }

  /** The persister restores every live category exactly, and the registry
      holds one entry per non-global key the persister knows. */
  ghost predicate Synced(m: Manager) {
    && Valid(m)
    && (forall k | k in m.endpoints :: Mirrors(m.store, m.endpoints[k]))
    && (m.global.Some? ==> Mirrors(m.store, m.global.value))
    && GetAll(m.store) - {GLOBAL} == m.endpoints.Keys
  }

  /** The constructor with its restore run to completion: one category per
      persisted key except the global one, each restored from its record;
      it fails when any of those records has an unknown label. */
  function Init(config: Config, store: Persister): (r: Result<Manager>)
    ensures r.Success? <==> forall k | k in GetAll(store) - {GLOBAL} :: Restore(store, k).Success?
    ensures r.Success? ==> r.value.endpoints.Keys == GetAll(store) - {GLOBAL}
    ensures r.Success? ==> forall k | k in r.value.endpoints :: Restore(store, k) == Success(r.value.endpoints[k])
    ensures r.Success? ==> Synced(r.value) && r.value.global.None? && r.value.config == config
  {
    var keys := GetAll(store) - {GLOBAL};
    if forall k | k in keys :: Restore(store, k).Success? then
      Success(Manager(config, None, map k | k in keys :: Restore(store, k).value, store))
    else
      Failure("a persisted shutoff record has an unknown state label")
  }

  /** The global category: the live one, or restored on first use. */
  function GlobalShutoff(m: Manager): (r: Result<Category>)
    ensures m.global.Some? ==> r == Success(m.global.value)
    ensures m.global.None? ==> r == Restore(m.store, GLOBAL)
  {
    match m.global
    case Some(g) => Success(g)
    case None => Restore(m.store, GLOBAL)
  }

  /** Installs a step of the global category. */
  function WithGlobal(m: Manager, s: Step): Manager {
    m.(global := Some(s.cat), store := Save(m.store, s.saved))
  }

  /** Installs a step of the category under `endpoint`. */
  function WithEndpoint(m: Manager, endpoint: string, s: Step): Manager {
    m.(endpoints := m.endpoints[endpoint := s.cat], store := Save(m.store, s.saved))
  }

  /** `setEndpointSpecificShutoff`: get or create the endpoint's category, then
      shut it off. An existing entry is reused, never replaced. */
  function SetEndpointSpecificShutoff(m: Manager, endpoint: string, now: int, jitter: int): (r: Result<Manager>)
    ensures endpoint in m.endpoints ==> r.Success?
    ensures endpoint !in m.endpoints ==> (r.Success? <==> Restore(m.store, endpoint).Success?)
    ensures r.Success? ==>
              var before := if endpoint in m.endpoints then m.endpoints[endpoint] else Restore(m.store, endpoint).value;
              && r.value.global == m.global
              && r.value.config == m.config
              && r.value.endpoints.Keys == m.endpoints.Keys + {endpoint}
              && r.value.endpoints[endpoint] == ShutOff(before, m.config, now, jitter).cat
              && (forall k | k in m.endpoints && k != endpoint :: r.value.endpoints[k] == m.endpoints[k])
  {
    var existing :- if endpoint in m.endpoints then Success(m.endpoints[endpoint]) else Restore(m.store, endpoint);
    Success(WithEndpoint(m, endpoint, ShutOff(existing, m.config, now, jitter)))
  }

  /** `resetEndpoint`: reset the global category and the endpoint's category
      if it exists; an absent endpoint is not created. */
  function ResetEndpoint(m: Manager, endpoint: string): (r: Result<Manager>)
    ensures r.Success? <==> GlobalShutoff(m).Success?
    ensures r.Success? ==>
              && r.value.global == Some(Reset(GlobalShutoff(m).value).cat)
              && r.value.config == m.config
              && r.value.endpoints.Keys == m.endpoints.Keys
              && (endpoint in m.endpoints ==> r.value.endpoints[endpoint] == Reset(m.endpoints[endpoint]).cat)
              && (forall k | k in m.endpoints && k != endpoint :: r.value.endpoints[k] == m.endpoints[k])
  {
    var g :- GlobalShutoff(m);
    var m1 := WithGlobal(m, Reset(g));
    if endpoint in m1.endpoints then Success(WithEndpoint(m1, endpoint, Reset(m1.endpoints[endpoint])))
    else Success(m1)
  }

  /** `determineShutoffStatusFromRequest`. `code` is the response's code, or
      `None` for a missing response. The global code shuts off the global
      category only; the endpoint code (when it is not also the global code)
      shuts off that endpoint only; anything else is a success. */
  function DetermineShutoffStatusFromRequest(m: Manager, code: Option<int>, endpoint: string, now: int, jitter: int)
    : (r: Result<Manager>)
    ensures code == Some(m.config.globalShutoffCode) ==>
              && (r.Success? <==> GlobalShutoff(m).Success?)
              && (r.Success? ==>
                    && r.value.endpoints == m.endpoints
                    && r.value.global == Some(ShutOff(GlobalShutoff(m).value, m.config, now, jitter).cat))
    ensures code == Some(m.config.endpointShutoffCode) && code != Some(m.config.globalShutoffCode) ==>
              r == SetEndpointSpecificShutoff(m, endpoint, now, jitter)
    ensures code != Some(m.config.globalShutoffCode) && code != Some(m.config.endpointShutoffCode) ==>
              r == ResetEndpoint(m, endpoint)
    ensures r.Success? ==> r.value.config == m.config
  {
    if code == Some(m.config.globalShutoffCode) then
      var g :- GlobalShutoff(m);
      Success(WithGlobal(m, ShutOff(g, m.config, now, jitter)))
    else if code == Some(m.config.endpointShutoffCode) then
      SetEndpointSpecificShutoff(m, endpoint, now, jitter)
    else
      ResetEndpoint(m, endpoint)
  }

  /** Whether the endpoint's own category answers "drop". */
  function EndpointDrops(m: Manager, endpoint: string, now: int, coin: bool): bool {
    endpoint in m.endpoints && CategoryShutoff.ShouldDropRequest(m.endpoints[endpoint], now, coin).drop
  }

  /** `shouldDropRequest(endpoint)`: the endpoint's category is asked first and
      a "drop" there is final, without asking the global category; otherwise
      the global category's answer is returned. An unknown endpoint counts as
      "not dropping". Each category may draw its own throttle coin. */
  function ShouldDropRequest(m: Manager, endpoint: string, now: int, endpointCoin: bool, globalCoin: bool)
    : (r: Result<Answer<bool>>)
    ensures r.Success? ==> r.value.manager.endpoints.Keys == m.endpoints.Keys && r.value.manager.config == m.config
    ensures EndpointDrops(m, endpoint, now, endpointCoin) ==> r == Success(Answer(true, m))
    ensures !EndpointDrops(m, endpoint, now, endpointCoin) && (m.global.Some? || Valid(m)) ==>
              && (r.Success? <==> GlobalShutoff(m).Success?)
              && (r.Success? ==>
                    && r.value.value == CategoryShutoff.ShouldDropRequest(GlobalShutoff(m).value, now, globalCoin).drop
                    && r.value.manager.global
                         == Some(CategoryShutoff.ShouldDropRequest(GlobalShutoff(m).value, now, globalCoin).step.cat)
                    && (endpoint in m.endpoints ==>
                          r.value.manager.endpoints[endpoint]
                            == CategoryShutoff.ShouldDropRequest(m.endpoints[endpoint], now, endpointCoin).step.cat)
                    && (forall k | k in m.endpoints && k != endpoint :: r.value.manager.endpoints[k] == m.endpoints[k]))
    ensures endpoint !in m.endpoints && r.Success? ==> r.value.manager.endpoints == m.endpoints
  {
    if EndpointDrops(m, endpoint, now, endpointCoin) then
      // a dropping category takes no step, so nothing else is touched
      Success(Answer(true, m))
    else
      var m1 :=
        if endpoint in m.endpoints
        then WithEndpoint(m, endpoint, CategoryShutoff.ShouldDropRequest(m.endpoints[endpoint], now, endpointCoin).step)
        else m;
      var g :- GlobalShutoff(m1);
      var d := CategoryShutoff.ShouldDropRequest(g, now, globalCoin);
      Success(Answer(d.drop, WithGlobal(m1, d.step)))
  }

  /** `getErrorCodeForResponse`: asks the global category (with its side
      effect) and reports the ENDPOINT code when it drops and the GLOBAL code
      when it does not. */
  function GetErrorCodeForResponse(m: Manager, now: int, coin: bool): (r: Result<Answer<int>>)
    ensures r.Success? <==> GlobalShutoff(m).Success?
    ensures r.Success? ==>
              var d := CategoryShutoff.ShouldDropRequest(GlobalShutoff(m).value, now, coin);
              && (d.drop ==> r.value.value == m.config.endpointShutoffCode)
              && (!d.drop ==> r.value.value == m.config.globalShutoffCode)
              && r.value.manager.endpoints == m.endpoints
              && r.value.manager.global == Some(d.step.cat)
  {
    var g :- GlobalShutoff(m);
    var d := CategoryShutoff.ShouldDropRequest(g, now, coin);
    var code := if d.drop then m.config.endpointShutoffCode else m.config.globalShutoffCode;
    Success(Answer(code, WithGlobal(m, d.step)))
  }

  /** A write under another key does not disturb what a category restores to. */
  lemma MirrorsAfterOtherWrite(p: Persister, saved: Option<NetworkShutoffLog>, c: Category)
    requires Mirrors(p, c)
    requires saved.Some? ==> saved.value.endpoint != c.endpoint
    ensures Mirrors(Save(p, saved), c)
  {
    if saved.Some? {
      assert GetLog(Save(p, saved), c.endpoint) == GetLog(p, c.endpoint);
    }
  }

  /** Installing a mirrored step of one registry entry keeps the manager in sync. */
  lemma EndpointStepKeepsSync(m: Manager, endpoint: string, before: Category, s: Step)
    requires Synced(m)
    requires endpoint != GLOBAL && before.endpoint == endpoint
    requires endpoint in m.endpoints ==> before == m.endpoints[endpoint]
    requires endpoint !in m.endpoints ==> Restore(m.store, endpoint) == Success(before)
    requires s.cat.endpoint == endpoint && s.saved == Some(Snapshot(s.cat))
    ensures Synced(WithEndpoint(m, endpoint, s))
  {
    var m' := WithEndpoint(m, endpoint, s);
    forall k | k in m'.endpoints ensures Mirrors(m'.store, m'.endpoints[k]) {
      if k != endpoint {
        MirrorsAfterOtherWrite(m.store, s.saved, m.endpoints[k]);
      } else {
        assert GetLog(m'.store, endpoint) == Snapshot(s.cat);
      }
    }
    if m.global.Some? {
      MirrorsAfterOtherWrite(m.store, s.saved, m.global.value);
    }
  }

  /** Installing a global step that saves nothing or saves its own snapshot
      keeps the manager in sync. */
  lemma GlobalStepKeepsSync(m: Manager, before: Category, s: Step)
    requires Synced(m)
    requires GlobalShutoff(m) == Success(before)
    requires s.cat.endpoint == GLOBAL
    requires s.saved.None? ==> s.cat == before
    requires s.saved.Some? ==> s.saved.value == Snapshot(s.cat)
    ensures Synced(WithGlobal(m, s))
  {
    var m' := WithGlobal(m, s);
    forall k | k in m'.endpoints ensures Mirrors(m'.store, m'.endpoints[k]) {
      MirrorsAfterOtherWrite(m.store, s.saved, m.endpoints[k]);
    }
    SavedStepMirrors(m.store, before, s);
  }

  /** A response signal keeps the persister in step with the live
      categories, as long as the endpoint is not named like the global one. */
  lemma DetermineKeepsSync(m: Manager, code: Option<int>, endpoint: string, now: int, jitter: int)
    requires Synced(m) && endpoint != GLOBAL
    ensures var r := DetermineShutoffStatusFromRequest(m, code, endpoint, now, jitter); r.Success? ==> Synced(r.value)
  {
    var config := m.config;
    if code == Some(config.globalShutoffCode) {
      if GlobalShutoff(m).Success? {
        var g := GlobalShutoff(m).value;
        GlobalStepKeepsSync(m, g, ShutOff(g, config, now, jitter));
      }
    } else if code == Some(config.endpointShutoffCode) {
      SetEndpointKeepsSync(m, endpoint, now, jitter);
    } else {
      ResetEndpointKeepsSync(m, endpoint);
    }
  }

  /** Shutting off one endpoint keeps the persister in step. */
  lemma SetEndpointKeepsSync(m: Manager, endpoint: string, now: int, jitter: int)
    requires Synced(m) && endpoint != GLOBAL
    ensures var r := SetEndpointSpecificShutoff(m, endpoint, now, jitter); r.Success? ==> Synced(r.value)
  {
    var existing := if endpoint in m.endpoints then Success(m.endpoints[endpoint]) else Restore(m.store, endpoint);
    if existing.Success? {
      EndpointStepKeepsSync(m, endpoint, existing.value, ShutOff(existing.value, m.config, now, jitter));
    }
  }

  /** Clearing one endpoint (and the global block) keeps the persister in step. */
  lemma ResetEndpointKeepsSync(m: Manager, endpoint: string)
    requires Synced(m) && endpoint != GLOBAL
    ensures var r := ResetEndpoint(m, endpoint); r.Success? ==> Synced(r.value)
  {
    if GlobalShutoff(m).Success? {
      var g := GlobalShutoff(m).value;
      var m1 := WithGlobal(m, Reset(g));
      GlobalStepKeepsSync(m, g, Reset(g));
      if endpoint in m1.endpoints {
        var c := m1.endpoints[endpoint];
        if Reset(c).saved.Some? {
          EndpointStepKeepsSync(m1, endpoint, c, Reset(c));
        } else {
          assert WithEndpoint(m1, endpoint, Reset(c)) == m1;
        }
      }
    }
  }

  /** A drop query keeps the persister in step with the live categories. */
  lemma DropQueryKeepsSync(m: Manager, endpoint: string, now: int, endpointCoin: bool, globalCoin: bool)
    requires Synced(m)
    ensures var r := ShouldDropRequest(m, endpoint, now, endpointCoin, globalCoin); r.Success? ==> Synced(r.value.manager)
  {
    if !EndpointDrops(m, endpoint, now, endpointCoin) {
      var m1 := m;
      if endpoint in m.endpoints {
        var c := m.endpoints[endpoint];
        var st := CategoryShutoff.ShouldDropRequest(c, now, endpointCoin).step;
        m1 := WithEndpoint(m, endpoint, st);
        if st.saved.Some? {
          EndpointStepKeepsSync(m, endpoint, c, st);
        } else {
          assert m1 == m;
        }
      }
      if GlobalShutoff(m1).Success? {
        var g := GlobalShutoff(m1).value;
        GlobalStepKeepsSync(m1, g, CategoryShutoff.ShouldDropRequest(g, now, globalCoin).step);
      }
    }
  }

  /** Asking for the error code keeps the persister in step as well. */
  lemma ErrorCodeKeepsSync(m: Manager, now: int, coin: bool)
    requires Synced(m)
    ensures var r := GetErrorCodeForResponse(m, now, coin); r.Success? ==> Synced(r.value.manager)
  {
    if GlobalShutoff(m).Success? {
      var g := GlobalShutoff(m).value;
      GlobalStepKeepsSync(m, g, CategoryShutoff.ShouldDropRequest(g, now, coin).step);
    }
  }

  /** Persist/restore round trip: a manager constructed afresh from the
      persister of a synced manager has the same registry, and its global
      category, once restored, is the live one. */
  lemma RestartRestoresManager(m: Manager)
    requires Synced(m)
    ensures Init(m.config, m.store) == Success(m.(global := None))
    ensures m.global.Some? ==> GlobalShutoff(m.(global := None)) == Success(m.global.value)
  {
    var keys := GetAll(m.store) - {GLOBAL};
    forall k | k in keys ensures Restore(m.store, k) == Success(m.endpoints[k]) {
      assert Mirrors(m.store, m.endpoints[k]);
    }
    assert (map k | k in keys :: Restore(m.store, k).value) == m.endpoints;
  }

  /** An active global block drops every category's requests. */
  lemma GlobalBlockDropsEveryCategory(m: Manager, endpoint: string, now: int, endpointCoin: bool, globalCoin: bool)
    requires m.global.Some? && m.global.value.state == Shutoff && now < m.global.value.shutOffUntil
    ensures var r := ShouldDropRequest(m, endpoint, now, endpointCoin, globalCoin);
            r.Success? && r.value.value
  {
  }

  /** A success on another category lifts the global block but leaves an
      existing category block in place: afterwards the blocked category still
      drops, and the succeeding category (if it has no block of its own) does
      not. */
  lemma {:induction false} SuccessOnOtherCategory(m: Manager, blocked: string, other: string, code: int, now: int,
                                                  jitter: int, c1: bool, c2: bool, c3: bool, c4: bool)
    requires Synced(m) && GlobalShutoff(m).Success?
    requires blocked in m.endpoints && m.endpoints[blocked].state == Shutoff && now < m.endpoints[blocked].shutOffUntil
    requires other != blocked && other != GLOBAL
    requires code != m.config.globalShutoffCode && code != m.config.endpointShutoffCode
    ensures var r := DetermineShutoffStatusFromRequest(m, Some(code), other, now, jitter);
            && r.Success?
            && r.value.global.Some? && r.value.global.value.state == Sending
            && r.value.endpoints[blocked] == m.endpoints[blocked]
            && (var q1 := ShouldDropRequest(r.value, blocked, now, c1, c2);
                q1.Success? && q1.value.value)
            && (var q2 := ShouldDropRequest(r.value, other, now, c3, c4);
                q2.Success? && !q2.value.value)
  {
    var r := DetermineShutoffStatusFromRequest(m, Some(code), other, now, jitter);
    assert r == ResetEndpoint(m, other);
    var m1 := r.value;
    assert m1.global.Some?;
    assert EndpointDrops(m1, blocked, now, c1);
    if other in m1.endpoints {
      assert m1.endpoints[other].state == Sending;
      assert !EndpointDrops(m1, other, now, c3);
    }
  }
}

/** `CategoryOfTrafficShutoff`: the three-state admission machine of one
    category of traffic (one endpoint, or all traffic for the global category).

    Every operation is a pure step from the machine's fields, the clock
    reading `now` and the randomizer's draws, to the new fields and the record
    written to the persister, if any. */
module CategoryShutoff {
  import opened Wrappers
  import opened ShutoffConfig
  import opened ShutoffLog

  datatype State = Sending | Shutoff | Attempting

  /** A category's mutable fields; `endpoint` names it and never changes. */
  datatype Category = Category(
    state: State,
    shutOffUntil: int,
    backoffSize: int,
    endpoint: string)

  /** One step: the fields afterwards and the record saved, if the step saved. */
  datatype Step = Step(cat: Category, saved: Option<NetworkShutoffLog>)

  /** A drop decision together with the step it took. */
  datatype Decision = Decision(drop: bool, step: Step)

  /** The name `toString` gives a state, and which is persisted. Reading it
      back yields the same state. */
  function Label(s: State): (name: string)
    ensures ParseState(name) == Success(s)
  {
    match s
    case Sending => "SENDING"
    case Shutoff => "SHUTOFF"
    case Attempting => "ATTEMPTING"
  }

  /** The `when` of the restore: "INACTIVE", the former name of SENDING, still
      reads as Sending; every other label goes through `State.valueOf`, which
      throws for anything that is not a state's name. */
  function ParseState(name: string): (r: Result<State>)
    ensures r.Success? <==> name in {"INACTIVE", "SENDING", "SHUTOFF", "ATTEMPTING"}
    ensures name == "INACTIVE" ==> r == Success(Sending)
  {
    if name == "INACTIVE" then Success(Sending)
    else if name == "SENDING" then Success(Sending)
    else if name == "SHUTOFF" then Success(Shutoff)
    else if name == "ATTEMPTING" then Success(Attempting)
    else Failure("No enum constant State." + name)
  }

  /** The field initialisers: a category nobody has shut off. */
  function Initial(endpoint: string): Category {
    Category(Sending, 0, 1, endpoint)
  }

  /** Builds a category from a record; the name is the constructor's `endpoint`,
      not the record's. */
  function FromLog(log: NetworkShutoffLog, endpoint: string): Result<Category> {
    var state :- ParseState(log.state);
    Success(Category(state, log.shutOffUntil, log.backoffSize, endpoint))
  }

  /** `saveState`'s record: label, backoff, deadline and name. Restoring from
      it gives back the same category. */
  function Snapshot(c: Category): (log: NetworkShutoffLog)
    ensures log.endpoint == c.endpoint
    ensures FromLog(log, c.endpoint) == Success(c)
  {
    NetworkShutoffLog(Label(c.state), c.backoffSize, c.shutOffUntil, c.endpoint)
  }

  /** The constructor's `init`: restore the fields from `getLog(endpoint)`.
      A key never stored gives the initial category; a stored record gives
      its backoff and deadline, and fails exactly when its label is unknown. */
  function Restore(p: Persister, endpoint: string): (r: Result<Category>)
    ensures endpoint !in GetAll(p) ==> r == Success(Initial(endpoint))
    ensures endpoint in GetAll(p) ==>
              (r.Success? <==> p.logs[endpoint].state in {"INACTIVE", "SENDING", "SHUTOFF", "ATTEMPTING"})
    ensures r.Success? ==> r.value.endpoint == endpoint
    ensures r.Success? && endpoint in GetAll(p) ==>
              && r.value.backoffSize == p.logs[endpoint].backoffSize
              && r.value.shutOffUntil == p.logs[endpoint].shutOffUntil
              && ParseState(p.logs[endpoint].state) == Success(r.value.state)
              && (p.logs[endpoint].state == "INACTIVE" ==> r.value.state == Sending)
  {
    FromLog(GetLog(p, endpoint), endpoint)
  }

  /** The persister holds what restores to exactly this category. */
  ghost predicate Mirrors(p: Persister, c: Category) {
    Restore(p, c.endpoint) == Success(c)
  }

  /** `reset`: a success signal. From SENDING nothing changes and nothing is
      written; otherwise the category returns to SENDING with no deadline and
      a backoff of 1, and that is saved. */
  function Reset(c: Category): (r: Step)
    ensures r.cat.state == Sending && r.cat.endpoint == c.endpoint
    ensures r.saved.None? <==> c.state == Sending
    ensures c.state == Sending ==> r.cat == c
    ensures c.state != Sending ==> r.cat.shutOffUntil == 0 && r.cat.backoffSize == 1
    ensures r.saved.Some? ==> r.saved.value == Snapshot(r.cat)
  {
    if c.state == Sending then Step(c, None)
    else
      var next := c.(state := Sending, shutOffUntil := 0, backoffSize := 1);
      Step(next, Some(Snapshot(next)))
  }

  /** `shutoff`: a shut-off signal. The deadline is `now` plus the backoff from
      BEFORE the increment times the increment, plus the jitter; the backoff
      then grows by one up to `maxBackoff`; the result is saved. */
  function ShutOff(c: Category, config: Config, now: int, jitter: int): (r: Step)
    ensures r.cat.state == Shutoff && r.cat.endpoint == c.endpoint
    ensures r.cat.shutOffUntil == now + c.backoffSize * config.backoffIncrement + jitter
    ensures r.cat.backoffSize <= config.maxBackoff
    ensures r.cat.backoffSize == c.backoffSize + 1 || r.cat.backoffSize == config.maxBackoff
    ensures c.backoffSize < config.maxBackoff ==> r.cat.backoffSize == c.backoffSize + 1
    ensures r.saved == Some(Snapshot(r.cat))
  {
    var until := RandomizeTime(config, now + c.backoffSize * config.backoffIncrement, jitter);
    var next := c.(state := Shutoff,
                   shutOffUntil := until,
                   backoffSize := CoerceAtMost(c.backoffSize + 1, config.maxBackoff));
    Step(next, Some(Snapshot(next)))
  }

  /** `shouldDropRequest`. SENDING admits and stays. ATTEMPTING answers the
      throttle coin and stays. SHUTOFF drops and stays while `now` is before
      the deadline; from the deadline on it admits this one request, moves to
      ATTEMPTING and saves. */
  function ShouldDropRequest(c: Category, now: int, throttleDrops: bool): (r: Decision)
    ensures r.step.saved.None? ==> r.step.cat == c
    ensures r.step.cat.endpoint == c.endpoint
    ensures r.step.cat.backoffSize == c.backoffSize && r.step.cat.shutOffUntil == c.shutOffUntil
    ensures c.state == Sending ==> !r.drop && r.step.saved.None?
    ensures c.state == Attempting ==> r.drop == throttleDrops && r.step.saved.None?
    ensures c.state == Shutoff && now < c.shutOffUntil ==> r.drop && r.step.saved.None?
    ensures c.state == Shutoff && now >= c.shutOffUntil ==>
              !r.drop && r.step.cat.state == Attempting && r.step.saved == Some(Snapshot(r.step.cat))
    ensures r.drop ==> r.step == Step(c, None)
  {
    match c.state
    case Attempting => Decision(throttleDrops, Step(c, None))
    case Sending => Decision(false, Step(c, None))
    case Shutoff =>
      var stillValid := c.shutOffUntil > now;
      if stillValid then Decision(true, Step(c, None))
      else
        var next := c.(state := Attempting);
        Decision(false, Step(next, Some(Snapshot(next))))
  }

  /** After every transition the persisted record restores to the new fields:
      a fresh instance built from the persister is the same category. */
  lemma TransitionsArePersisted(p: Persister, c: Category, config: Config, now: int, jitter: int, coin: bool)
    requires Mirrors(p, c)
    ensures Mirrors(Save(p, Reset(c).saved), Reset(c).cat)
    ensures Mirrors(Save(p, ShutOff(c, config, now, jitter).saved), ShutOff(c, config, now, jitter).cat)
    ensures var d := ShouldDropRequest(c, now, coin); Mirrors(Save(p, d.step.saved), d.step.cat)
  {
    SavedStepMirrors(p, c, Reset(c));
    SavedStepMirrors(p, c, ShutOff(c, config, now, jitter));
    SavedStepMirrors(p, c, ShouldDropRequest(c, now, coin).step);
  }

  /** A step that either saves its own snapshot or leaves the fields alone
      keeps the persister mirroring the category. */
  lemma SavedStepMirrors(p: Persister, c: Category, s: Step)
    requires Mirrors(p, c)
    requires s.cat.endpoint == c.endpoint
    requires s.saved.None? ==> s.cat == c
    requires s.saved.Some? ==> s.saved.value == Snapshot(s.cat)
    ensures Mirrors(Save(p, s.saved), s.cat)
  {
    if s.saved.Some? {
      var q := AddAndUpdateLog(p, s.saved.value);
      assert GetLog(q, c.endpoint) == Snapshot(s.cat);
    }
  }

  /** `reset` is idempotent: a second reset changes nothing and writes nothing. */
  lemma ResetIdempotent(c: Category)
    ensures Reset(Reset(c).cat) == Step(Reset(c).cat, None)
  {
  }

  /** One event in the life of a category without any success signal: a
      shut-off signal with its jitter, or a drop query with its throttle coin. */
  datatype Event = Fail(at: int, jitter: int) | Query(at: int, coin: bool)

  /** The category after a run of events, oldest first. */
  function Run(c: Category, config: Config, events: seq<Event>): Category
    decreases |events|
  {
    if events == [] then c
    else
      var before := Run(c, config, events[..|events| - 1]);
      match events[|events| - 1]
      case Fail(at, jitter) => ShutOff(before, config, at, jitter).cat
      case Query(at, coin) => ShouldDropRequest(before, at, coin).step.cat
  }

  /** How many shut-off signals a run holds. */
  function Failures(events: seq<Event>): nat
    decreases |events|
  {
    if events == [] then 0
    else Failures(events[..|events| - 1]) + (if events[|events| - 1].Fail? then 1 else 0)
  }

  /** Backoff under consecutive failures: with no reset in between, starting
      from a backoff in [1, maxBackoff], the backoff after n shut-off signals
      is the start plus n, capped at maxBackoff; queries never change it. */
  lemma {:induction false} BackoffAfterRun(c: Category, config: Config, events: seq<Event>)
    requires 1 <= c.backoffSize <= config.maxBackoff
    ensures Run(c, config, events).backoffSize == CoerceAtMost(c.backoffSize + Failures(events), config.maxBackoff)
    decreases |events|
  {
    if events != [] {
      BackoffAfterRun(c, config, events[..|events| - 1]);
    }
  }

  /** The backoff never decreases along a run and never leaves [1, maxBackoff]. */
  lemma BackoffMonotone(c: Category, config: Config, events: seq<Event>, i: nat, j: nat)
    requires 1 <= c.backoffSize <= config.maxBackoff
    requires i <= j <= |events|
    ensures 1 <= Run(c, config, events[..i]).backoffSize
    ensures Run(c, config, events[..i]).backoffSize <= Run(c, config, events[..j]).backoffSize
    ensures Run(c, config, events[..j]).backoffSize <= config.maxBackoff
  {
    BackoffAfterRun(c, config, events[..i]);
    BackoffAfterRun(c, config, events[..j]);
    FailuresMonotone(events[..j], i);
    assert events[..j][..i] == events[..i];
  }

  lemma {:induction false} FailuresMonotone(events: seq<Event>, i: nat)
    requires i <= |events|
    ensures Failures(events[..i]) <= Failures(events)
    decreases |events|
  {
    if i < |events| {
      var front := events[..|events| - 1];
      FailuresMonotone(front, i);
      assert front[..i] == events[..i];
    } else {
      assert events[..i] == events;
    }
  }

  /** The i-th consecutive failure of a category starting at backoff 1 blocks
      for `min(i, maxBackoff) * backoffIncrement` plus its jitter. */
  lemma NthFailureWindow(c: Category, config: Config, events: seq<Event>)
    requires c.backoffSize == 1 <= config.maxBackoff
    requires |events| > 0 && events[|events| - 1].Fail?
    ensures var last := events[|events| - 1];
            Run(c, config, events).shutOffUntil
              == last.at + CoerceAtMost(Failures(events), config.maxBackoff) * config.backoffIncrement + last.jitter
  {
    BackoffAfterRun(c, config, events[..|events| - 1]);
  }

  /** After a shut-off signal the category drops every request before its
      deadline without changing; from the deadline on it admits exactly one
      request and moves to ATTEMPTING, after which every answer is the
      throttle coin. With a valid jitter the deadline is at least one
      backoff window away. */
  lemma ShutoffBlocksUntilDeadline(c: Category, config: Config, at: int, jitter: int, now: int, coin: bool, later: int, coin2: bool)
    ensures var s := ShutOff(c, config, at, jitter).cat;
            && (now < s.shutOffUntil ==> ShouldDropRequest(s, now, coin) == Decision(true, Step(s, None)))
            && (now >= s.shutOffUntil ==>
                  var d := ShouldDropRequest(s, now, coin);
                  !d.drop && d.step.cat.state == Attempting
                  && ShouldDropRequest(d.step.cat, later, coin2).drop == coin2)
    ensures ValidJitter(config, jitter) ==>
              ShutOff(c, config, at, jitter).cat.shutOffUntil >= at + c.backoffSize * config.backoffIncrement
  {
  }
}

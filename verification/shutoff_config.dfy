/** `NetworkShutoffManager.Config` and the contract of `NetworkShutoffManager.Randomizer`.

    The randomizer draws floating-point numbers; here each draw is an input:
    the jitter added to a shutoff deadline, and the boolean answer of the
    throttle used while a category is ATTEMPTING. */
module ShutoffConfig {

  /** Backoff times in milliseconds, the backoff cap as a multiplier, the
      throttle denominator and the two reserved response codes. */
  datatype Config = Config(
    backoffIncrement: int,
    maxBackoff: int,
    attemptingThrottle: int,
    globalShutoffCode: int,
    endpointShutoffCode: int,
    backoffSpread: int)

  /** A jitter the default randomizer can draw: `Math.random() * backoffSpread`
      rounded, for a non-negative spread. */
  predicate ValidJitter(config: Config, jitter: int) {
    0 <= jitter <= config.backoffSpread
  }

  /** `randomizeTime`: pushes a deadline later by the drawn jitter, never
      earlier and never by more than the configured spread. */
  function RandomizeTime(config: Config, time: int, jitter: int): (r: int)
    ensures ValidJitter(config, jitter) ==> time <= r <= time + config.backoffSpread
    ensures r - time == jitter
  {
    time + jitter
  }

  /** Kotlin's `coerceAtMost`: the value, capped at `limit`. */
  function CoerceAtMost(value: int, limit: int): (r: int)
    ensures r <= value && r <= limit
    ensures r == value || r == limit
  {
    if value > limit then limit else value
  }
}

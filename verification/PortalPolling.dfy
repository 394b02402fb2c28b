// The adaptive polling state machine: steady, burst and cooldown. Durations are
// whole seconds held in a u64, instants are nanoseconds since 1970.
module PortalPolling {
  import opened Prelude

  const U64_MAX: nat := 0xffff_ffff_ffff_ffff
  const NANOS: nat := 1_000_000_000
  // The last instant chrono can represent.
  const MAX_INSTANT: int := 8_210_266_876_799 * 1_000_000_000 + 999_999_999
  // The longest chrono duration, in seconds.
  const MAX_DURATION: nat := 9_223_372_036_854_775

  datatype Mode = Steady | Burst | Cooldown

  datatype Failure = Forbidden | RateLimited | Server | Network | Other

  function FailureName(f: Failure): string {
    match f
    case Forbidden => "forbidden"
    case RateLimited => "rate_limited"
    case Server => "server"
    case Network => "network"
    case Other => "other"
  }

  datatype PollState = PollState(
    mode: Mode,
    nextPollAt: int,
    burstUntil: Option<int>,
    cooldownReason: Option<string>,
    lastPolledAt: Option<int>,
    lastPollOutcome: Option<string>,
    lastHttpStatus: Option<nat>)

  // A poll's report: an error carries its classification, if it has one.
  datatype Report = Report(
    error: bool,
    failure: Option<Failure>,
    noticesFound: nat,
    retryAfter: Option<nat>,
    httpStatus: Option<nat>)

  datatype Config = Config(
    steadyInterval: nat,
    burstInterval: nat,
    burstDuration: nat,
    forbiddenCooldown: nat,
    rateLimitCooldown: nat,
    failureCooldown: nat,
    jitterPercent: nat)

  predicate ValidConfig(c: Config) {
    && 0 < c.burstInterval <= c.steadyInterval <= 86_400
    && c.burstInterval <= c.burstDuration <= 86_400
    && 0 < c.forbiddenCooldown <= 2_592_000
    && 0 < c.rateLimitCooldown <= 2_592_000
    && 0 < c.failureCooldown <= 2_592_000
    && c.jitterPercent <= 25
  }

  // The table constraint, which the store also checks before writing.
  predicate Consistent(s: PollState) {
    match s.mode
    case Steady => s.burstUntil.None? && s.cooldownReason.None?
    case Burst => s.burstUntil.Some? && s.cooldownReason.None?
    case Cooldown => s.burstUntil.None? && s.cooldownReason.Some?
  }

  function SaturatingMul(a: nat, b: nat): nat {
    if a * b > U64_MAX then U64_MAX else a * b
  }

  function SaturatingAdd(a: nat, b: nat): nat {
    if a + b > U64_MAX then U64_MAX else a + b
  }

  function SaturatingSub(a: nat, b: nat): nat {
    if a > b then a - b else 0
  }

  function JitterWindow(base: nat, percent: nat): nat {
    SaturatingMul(base, percent) / 100
  }

  function JitteredDelay(base: nat, percent: nat, seed: nat): nat {
    var window := JitterWindow(base, percent);
    if window == 0 then base
    else
      var width := SaturatingAdd(SaturatingMul(window, 2), 1);
      var delay := SaturatingAdd(SaturatingSub(base, window), seed % width);
      if delay < 1 then 1 else delay
  }

  // None when the delay or the resulting instant is out of range.
  function AddDelay(at: int, seconds: nat): Option<int> {
    if seconds > MAX_DURATION || at + seconds * NANOS > MAX_INSTANT then None
    else Some(at + seconds * NANOS)
  }

  // Milliseconds of the poll instant, without its sign.
  function Seed(polledAt: int): nat {
    var millis := polledAt / 1_000_000;
    if millis < 0 then -millis else millis
  }

  function FailureDelay(report: Report, config: Config): nat {
    match report.failure
    case Some(Forbidden) => config.forbiddenCooldown
    case Some(RateLimited) =>
      var seconds := report.retryAfter.GetOr(config.rateLimitCooldown);
      if seconds < 1 then 1 else seconds
    case _ => config.failureCooldown
  }

  function NextPollState(current: PollState, report: Report, polledAt: int, config: Config): Option<PollState> {
    if report.error then
      var name := FailureName(report.failure.GetOr(Other));
      match AddDelay(polledAt, FailureDelay(report, config))
      case None => None
      case Some(next) =>
        Some(PollState(Cooldown, next, None, Some(name), Some(polledAt), Some("error_" + name), report.httpStatus))
    else
      var burstAt := AddDelay(polledAt, JitteredDelay(config.burstInterval, config.jitterPercent, Seed(polledAt)));
      if report.noticesFound > 0 then
        var until := AddDelay(polledAt, config.burstDuration);
        if until.None? || burstAt.None? then None
        else Some(PollState(Burst, burstAt.value, until, None, Some(polledAt), Some("new_notices"), report.httpStatus))
      else if current.mode.Burst? && current.burstUntil.Some? && current.burstUntil.value > polledAt then
        if burstAt.None? then None
        else
          Some(PollState(Burst, burstAt.value, current.burstUntil, None, Some(polledAt), Some("unchanged"),
                         report.httpStatus))
      else
        match AddDelay(polledAt, JitteredDelay(config.steadyInterval, config.jitterPercent, Seed(polledAt)))
        case None => None
        case Some(next) =>
          Some(PollState(Steady, next, None, None, Some(polledAt), Some("unchanged"), report.httpStatus))
  }

  // ---- Jitter -------------------------------------------------------------

  lemma WindowWithin(base: nat, percent: nat)
    requires percent <= 100
    ensures JitterWindow(base, percent) <= base
  {
    assert base * percent <= base * 100;
  }

  // Up to 100 percent the delay stays within the window around its base, and it
  // is positive exactly when the base is.
  lemma {:induction false} JitterBounds(base: nat, percent: nat, seed: nat)
    requires base <= U64_MAX && percent <= 100
    ensures var delay, window := JitteredDelay(base, percent, seed), JitterWindow(base, percent);
      && base - window <= delay <= base + window
      && (delay >= 1 <==> base >= 1)
  {
    WindowWithin(base, percent);
  }

  // Every delay in the window is taken for some seed.
  lemma {:induction false} JitterReaches(base: nat, percent: nat, delay: nat) returns (seed: nat)
    requires 1 <= base <= 86_400 && percent <= 25
    requires base - JitterWindow(base, percent) <= delay <= base + JitterWindow(base, percent)
    ensures JitteredDelay(base, percent, seed) == delay
  {
    WindowWithin(base, percent);
    var window := JitterWindow(base, percent);
    assert window <= 86_400;
    seed := delay - (base - window);
    if window > 0 {
      assert seed < 2 * window + 1;
      NoWrap(seed, 2 * window + 1);
      assert base - window >= 1 by { QuarterWindow(base, percent); }
    }
  }

  lemma NoWrap(seed: nat, width: nat)
    requires seed < width
    ensures seed % width == seed
  {
  }

  lemma QuarterWindow(base: nat, percent: nat)
    requires 1 <= base <= 86_400 && percent <= 25
    ensures 4 * JitterWindow(base, percent) <= base
  {
    assert base * percent <= base * 25;
    hide JitterWindow;
    QuarterOf(base, percent);
  }

  lemma QuarterOf(base: nat, percent: nat)
    requires base * percent <= base * 25 && base <= 86_400 && percent <= 25
    ensures 4 * JitterWindow(base, percent) <= base
  {
  }

  // The seed counts the milliseconds since 1970.
  lemma {:induction false} SeedsFollow(polledAt: nat)
    ensures Seed(0) == 0 && Seed(polledAt + 1_000_000) == Seed(polledAt) + 1
    ensures Seed(-1_000_000 * polledAt) == polledAt
  {
  }

  // ---- One transition -----------------------------------------------------

  lemma DelaysPositive(report: Report, config: Config, seed: nat)
    requires ValidConfig(config)
    ensures FailureDelay(report, config) >= 1
    ensures 1 <= JitteredDelay(config.burstInterval, config.jitterPercent, seed) <= 2 * 86_400
    ensures 1 <= JitteredDelay(config.steadyInterval, config.jitterPercent, seed) <= 2 * 86_400
  {
    JitterBounds(config.burstInterval, config.jitterPercent, seed);
    JitterBounds(config.steadyInterval, config.jitterPercent, seed);
    WindowWithin(config.burstInterval, config.jitterPercent);
    WindowWithin(config.steadyInterval, config.jitterPercent);
  }

  // From any state and any report, the next state satisfies the table's
  // constraint and waits for some time after the poll. There is one unless the
  // server asked for a wait beyond the calendar, or the calendar ends.
  lemma {:induction false} TransitionSafe(current: PollState, report: Report, polledAt: int, config: Config)
    requires ValidConfig(config)
    ensures var next := NextPollState(current, report, polledAt, config);
      next.Some? ==>
        && Consistent(next.value)
        && next.value.nextPollAt > polledAt
        && next.value.lastPolledAt == Some(polledAt)
        && (next.value.mode.Cooldown? <==> report.error)
        && (next.value.burstUntil.Some? ==> next.value.burstUntil.value > polledAt)
    ensures polledAt + 2_592_000 * NANOS <= MAX_INSTANT && report.retryAfter.GetOr(0) <= 2_592_000 ==>
      NextPollState(current, report, polledAt, config).Some?
  {
    DelaysPositive(report, config, Seed(polledAt));
  }

  // How long the next poll waits.
  function Wait(current: PollState, report: Report, polledAt: int, config: Config): nat {
    var inBurst := current.mode.Burst? && current.burstUntil.Some? && current.burstUntil.value > polledAt;
    if report.error then FailureDelay(report, config)
    else JitteredDelay(if report.noticesFound > 0 || inBurst then config.burstInterval else config.steadyInterval,
                       config.jitterPercent, Seed(polledAt))
  }

  // There is no next state exactly when a rate limit asks for a longer wait than
  // the longest duration, or the next poll or the end of a new burst lies beyond
  // the last instant.
  lemma {:induction false} NoTransitionIff(current: PollState, report: Report, polledAt: int, config: Config)
    requires ValidConfig(config)
    ensures NextPollState(current, report, polledAt, config).None? <==>
      || (report.error && report.failure == Some(RateLimited) && report.retryAfter.GetOr(0) > MAX_DURATION)
      || polledAt + Wait(current, report, polledAt, config) * NANOS > MAX_INSTANT
      || (!report.error && report.noticesFound > 0 && polledAt + config.burstDuration * NANOS > MAX_INSTANT)
    ensures NextPollState(current, report, polledAt, config).Some? ==>
      NextPollState(current, report, polledAt, config).value.nextPollAt
      == polledAt + Wait(current, report, polledAt, config) * NANOS
  {
    hide JitteredDelay, Seed;
    DelaysPositive(report, config, Seed(polledAt));
    LongDelay(report, config);
  }

  lemma LongDelay(report: Report, config: Config)
    requires ValidConfig(config)
    ensures FailureDelay(report, config) > MAX_DURATION <==>
      report.failure == Some(RateLimited) && report.retryAfter.GetOr(0) > MAX_DURATION
  {
  }

  // A failed poll waits for the cooldown of its failure: a rate limit for what it
  // asked, at least a second, or for its own cooldown when it asked for nothing.
  lemma {:induction false} CooldownIs(current: PollState, report: Report, polledAt: int, config: Config)
    requires report.error && NextPollState(current, report, polledAt, config).Some?
    ensures var next := NextPollState(current, report, polledAt, config).value;
      var waited := next.nextPollAt - polledAt;
      && next.mode == Cooldown && next.lastHttpStatus == report.httpStatus
      && (report.failure == Some(Forbidden) ==>
            waited == config.forbiddenCooldown * NANOS && next.cooldownReason == Some("forbidden"))
      && (report.failure == Some(RateLimited) && report.retryAfter.Some? && report.retryAfter.value >= 1 ==>
            waited == report.retryAfter.value * NANOS)
      && (report.failure == Some(RateLimited) && report.retryAfter == Some(0) ==> waited == NANOS)
      && (report.failure == Some(RateLimited) && report.retryAfter.None? && config.rateLimitCooldown >= 1 ==>
            waited == config.rateLimitCooldown * NANOS)
      && (report.failure == Some(RateLimited) ==> next.cooldownReason == Some("rate_limited"))
      && (report.failure in {None, Some(Server), Some(Network), Some(Other)} ==>
            waited == config.failureCooldown * NANOS)
      && (report.failure == Some(Server) ==> next.cooldownReason == Some("server"))
      && (report.failure == Some(Network) ==> next.cooldownReason == Some("network"))
      && (report.failure in {None, Some(Other)} ==> next.cooldownReason == Some("other"))
      && next.lastPollOutcome == Some("error_" + next.cooldownReason.value)
  {
  }

  // A successful poll is recorded as what it found.
  lemma {:induction false} OutcomeIs(current: PollState, report: Report, polledAt: int, config: Config)
    requires !report.error && NextPollState(current, report, polledAt, config).Some?
    ensures var next := NextPollState(current, report, polledAt, config).value;
      && next.lastPollOutcome == Some(if report.noticesFound > 0 then "new_notices" else "unchanged")
      && next.lastHttpStatus == report.httpStatus && next.lastPolledAt == Some(polledAt)
  {
    hide JitteredDelay;
  }

  // Which mode follows, and how long the wait is: a successful poll waits for the
  // interval of its mode give or take the jitter, a failed one for the cooldown
  // of its failure, or as long as a rate limit asked for.
  lemma {:induction false} TransitionTiming(current: PollState, report: Report, polledAt: int, config: Config)
    requires ValidConfig(config) && NextPollState(current, report, polledAt, config).Some?
    ensures var next := NextPollState(current, report, polledAt, config).value;
      var inBurst := current.mode.Burst? && current.burstUntil.Some? && current.burstUntil.value > polledAt;
      var base := if next.mode.Burst? then config.burstInterval else config.steadyInterval;
      var window := JitterWindow(base, config.jitterPercent);
      && (next.mode.Burst? <==> !report.error && (report.noticesFound > 0 || inBurst))
      && (next.mode.Burst? && report.noticesFound == 0 ==> next.burstUntil == current.burstUntil)
      && (next.mode.Burst? && report.noticesFound > 0 ==>
        next.burstUntil == Some(polledAt + config.burstDuration * NANOS))
      && (!report.error ==>
        polledAt + (base - window) * NANOS <= next.nextPollAt <= polledAt + (base + window) * NANOS)
      && (report.error && report.failure == Some(RateLimited) && report.retryAfter.Some? ==>
        next.nextPollAt >= polledAt + report.retryAfter.value * NANOS)
      && (report.error ==> next.cooldownReason == Some(FailureName(report.failure.GetOr(Other))))
  {
    hide JitterWindow, JitteredDelay, Seed, FailureName;
    JitterBounds(config.burstInterval, config.jitterPercent, Seed(polledAt));
    JitterBounds(config.steadyInterval, config.jitterPercent, Seed(polledAt));
  }

  // ---- Bursts over runs ---------------------------------------------------

  // A poll without an error and without new notices.
  datatype QuietPoll = QuietPoll(at: int, status: Option<nat>)

  function Quiet(current: PollState, poll: QuietPoll, config: Config): Option<PollState> {
    NextPollState(current, Report(false, None, 0, None, poll.status), poll.at, config)
  }

  // The polls happen one after the other, none before its state's `next_poll_at`,
  // and each finds a next state; `Last` is the state after them.
  ghost predicate Timely(start: PollState, polls: seq<QuietPoll>, config: Config)
    decreases |polls|, 0
  {
    polls == [] || (
      var front, poll := polls[..|polls| - 1], polls[|polls| - 1];
      && Timely(start, front, config)
      && poll.at >= Last(start, front, config).nextPollAt
      && Quiet(Last(start, front, config), poll, config).Some?)
  }

  ghost function Last(start: PollState, polls: seq<QuietPoll>, config: Config): PollState
    requires Timely(start, polls, config)
    decreases |polls|, 1
  {
    if polls == [] then start
    else Quiet(Last(start, polls[..|polls| - 1], config), polls[|polls| - 1], config).value
  }

  function ShortestBurstDelay(config: Config): int {
    config.burstInterval - JitterWindow(config.burstInterval, config.jitterPercent)
  }

  lemma QuietStep(current: PollState, poll: QuietPoll, config: Config)
    requires ValidConfig(config) && Quiet(current, poll, config).Some?
    ensures var next := Quiet(current, poll, config).value;
      && !next.mode.Cooldown?
      && (next.mode.Burst? <==> current.mode.Burst? && current.burstUntil.Some? && poll.at < current.burstUntil.value)
      && (next.mode.Burst? ==>
            && next.burstUntil == current.burstUntil
            && next.nextPollAt >= poll.at + ShortestBurstDelay(config) * NANOS)
  {
  }

  lemma OneMoreWait(from: int, at: int, k: nat, shortest: int, duration: nat)
    requires from + k * shortest * NANOS <= at < from + duration * NANOS
    ensures k * shortest < duration
    ensures at + shortest * NANOS >= from + (k + 1) * shortest * NANOS
  {
  }

  // After the last new notice, found at `foundAt`, quiet polls never extend the
  // burst: it still ends `burst_duration` after that notice, and k polls can
  // fall within it only if k of the shortest delays fit in the duration.
  lemma {:induction false} BurstEnds(current: PollState, found: Report, foundAt: int, polls: seq<QuietPoll>,
                                     config: Config)
    requires ValidConfig(config) && !found.error && found.noticesFound > 0
    requires NextPollState(current, found, foundAt, config).Some?
    requires Timely(NextPollState(current, found, foundAt, config).value, polls, config)
    ensures var start := NextPollState(current, found, foundAt, config).value;
      var last := Last(start, polls, config);
      && start.mode.Burst?
      && (last.mode.Burst? ==>
            && last.burstUntil == Some(foundAt + config.burstDuration * NANOS)
            && last.nextPollAt >= foundAt + (|polls| + 1) * ShortestBurstDelay(config) * NANOS
            && (|polls| > 0 ==> |polls| * ShortestBurstDelay(config) < config.burstDuration))
  {
    var start := NextPollState(current, found, foundAt, config).value;
    var shortest := ShortestBurstDelay(config);
    JitterBounds(config.burstInterval, config.jitterPercent, Seed(foundAt));
    if polls != [] {
      var front, poll := polls[..|polls| - 1], polls[|polls| - 1];
      BurstEnds(current, found, foundAt, front, config);
      QuietStep(Last(start, front, config), poll, config);
      var last := Last(start, polls, config);
      if last.mode.Burst? {
        OneMoreWait(foundAt, poll.at, |polls|, shortest, config.burstDuration);
      }
    }
  }

  // Once a quiet poll comes at or after the end of the burst, polling is steady
  // and stays so while polls stay quiet.
  lemma {:induction false} SteadyAgain(start: PollState, polls: seq<QuietPoll>, config: Config)
    requires ValidConfig(config) && Timely(start, polls, config) && polls != []
    requires start.mode.Burst? && start.burstUntil.Some? ==> polls[0].at >= start.burstUntil.value
    ensures Last(start, polls, config).mode.Steady?
  {
    var front, poll := polls[..|polls| - 1], polls[|polls| - 1];
    if front != [] {
      SteadyAgain(start, front, config);
    } else {
      assert Last(start, front, config) == start;
    }
    QuietStep(Last(start, front, config), poll, config);
  }
}

/** The circuit breaker and how often it lets a request through (`circuit_breaker.py`). */
module Breaking {
  import opened Sequences

  datatype Mode = Closed | Open | HalfOpen

  datatype Breaker = Breaker(mode: Mode, failures: nat, openedAt: Option<real>, probing: bool)

  const FRESH := Breaker(Closed, 0, None, false)

  datatype Settings = Settings(failureThreshold: int, resetTimeout: real)

  /** A call on the breaker, and what its clock says then. */
  datatype Call = Allow(now: real) | Success(now: real) | Failure(now: real)

  /** Whether a request made now is let through. */
  predicate Grants(st: Settings, b: Breaker, call: Call) {
    call.Allow?
    && match b.mode
       case Closed => true
       case Open => b.openedAt.Some? && st.resetTimeout <= call.now - b.openedAt.value
       case HalfOpen => !b.probing
  }

  function Next(st: Settings, b: Breaker, call: Call): Breaker {
    match call
    case Allow(now) =>
      if b.mode.Open? && b.openedAt.None? then b.(openedAt := Some(now))
      else if Grants(st, b, call) && !b.mode.Closed? then b.(mode := HalfOpen, probing := true)
      else b
    case Success(_) => FRESH
    case Failure(now) =>
      var counted := b.(failures := b.failures + 1, probing := false);
      if b.mode.HalfOpen? || st.failureThreshold <= b.failures + 1 then counted.(mode := Open, openedAt := Some(now))
      else counted
  }

  function After(st: Settings, b: Breaker, calls: seq<Call>): Breaker {
    if calls == [] then b else Next(st, After(st, b, calls[..|calls| - 1]), calls[|calls| - 1])
  }

  /** When requests were let through. */
  function GrantTimes(st: Settings, b: Breaker, calls: seq<Call>): seq<real> {
    if calls == [] then []
    else
      var front, last := calls[..|calls| - 1], calls[|calls| - 1];
      var earlier := GrantTimes(st, b, front);
      if Grants(st, After(st, b, front), last) then earlier + [last.now] else earlier
  }

  /** The clock never goes back. */
  ghost predicate ClockMonotone(calls: seq<Call>) {
    forall i, j :: 0 <= i < j < |calls| ==> calls[i].now <= calls[j].now
  }

  /** A half-open breaker has its one probe out, and an open one knows since when. */
  ghost predicate Sound(b: Breaker) {
    && (b.mode.HalfOpen? <==> b.probing)
    && (b.mode.Open? ==> b.openedAt.Some?)
  }

  lemma {:induction false} AlwaysSound(st: Settings, calls: seq<Call>)
    ensures Sound(After(st, FRESH, calls))
  {
    if calls != [] {
      AlwaysSound(st, calls[..|calls| - 1]);
    }
  }

  /** How many failures were recorded since the last success. */
  function Failures(calls: seq<Call>): nat {
    if calls == [] then 0
    else
      var earlier := Failures(calls[..|calls| - 1]);
      match calls[|calls| - 1]
      case Success(_) => 0
      case Failure(_) => earlier + 1
      case Allow(_) => earlier
  }

  /** When the last failure was recorded. */
  function LastFailure(calls: seq<Call>): real {
    if calls == [] then 0.0
    else if calls[|calls| - 1].Failure? then calls[|calls| - 1].now
    else LastFailure(calls[..|calls| - 1])
  }

  /** Whether, since anything was recorded, a request came a timeout or more after the last failure. */
  predicate Probed(st: Settings, calls: seq<Call>) {
    calls != [] &&
      var front, last := calls[..|calls| - 1], calls[|calls| - 1];
      last.Allow? && (Probed(st, front) || st.resetTimeout <= last.now - LastFailure(front))
  }

  predicate Tripped(st: Settings, calls: seq<Call>) {
    0 < Failures(calls) && st.failureThreshold <= Failures(calls)
  }

  /**
    * In every run, a request is let through exactly when since the last success there were fewer
    * failures than the threshold, or none; or else when the timeout has passed since the last failure
    * and no request came before it that late.
    */
  lemma GrantedIff(st: Settings, calls: seq<Call>, now: real)
    ensures Grants(st, After(st, FRESH, calls), Allow(now)) <==>
      || Failures(calls) == 0
      || Failures(calls) < st.failureThreshold
      || (LastFailure(calls) + st.resetTimeout <= now && !Probed(st, calls))
  {
    StateOfRun(st, calls);
  }

  lemma {:induction false} StateOfRun(st: Settings, calls: seq<Call>)
    ensures After(st, FRESH, calls) ==
      if !Tripped(st, calls) then Breaker(Closed, Failures(calls), None, false)
      else if !Probed(st, calls) then Breaker(Open, Failures(calls), Some(LastFailure(calls)), false)
      else Breaker(HalfOpen, Failures(calls), Some(LastFailure(calls)), true)
  {
    if calls != [] {
      StateOfRun(st, calls[..|calls| - 1]);
    }
  }

  ghost predicate NoSuccess(calls: seq<Call>) {
    forall i :: 0 <= i < |calls| ==> !calls[i].Success?
  }

  /** Since the last request let through the breaker is half-open, or was opened again no earlier. */
  ghost predicate Guarded(b: Breaker, grants: seq<real>, now: real) {
    && Sound(b) && !b.mode.Closed?
    && (b.mode.Open? && grants != [] ==> grants[|grants| - 1] <= b.openedAt.value)
    && (grants != [] ==> grants[|grants| - 1] <= now)
  }

  ghost predicate Spaced(times: seq<real>, gap: real) {
    forall i :: 0 < i < |times| ==> gap <= times[i] - times[i - 1]
  }

  /**
    * From a breaker that is not closed on, and as long as nothing succeeds, requests are let through
    * at least the reset timeout apart.
    */
  lemma {:induction false} GrantsAreSpaced(st: Settings, b: Breaker, calls: seq<Call>)
    requires Sound(b) && !b.mode.Closed? && NoSuccess(calls) && ClockMonotone(calls)
    ensures Spaced(GrantTimes(st, b, calls), st.resetTimeout)
    ensures calls != [] ==> Guarded(After(st, b, calls), GrantTimes(st, b, calls), calls[|calls| - 1].now)
  {
    if calls != [] {
      var front, last := calls[..|calls| - 1], calls[|calls| - 1];
      GrantsAreSpaced(st, b, front);
      if front != [] {
        assert front[|front| - 1].now <= last.now;
      }
    }
  }

  /** `n * gap`. */
  function Times(n: nat, gap: real): real {
    if n == 0 then 0.0 else Times(n - 1, gap) + gap
  }

  lemma {:induction false} SpacedApart(times: seq<real>, gap: real, i: nat, j: nat)
    requires Spaced(times, gap) && i <= j < |times|
    ensures Times(j - i, gap) <= times[j] - times[i]
  {
    if i < j {
      SpacedApart(times, gap, i, j - 1);
    }
  }

  lemma {:induction false} TimesIsProduct(n: nat, gap: real)
    ensures Times(n, gap) == n as real * gap
  {
    if n != 0 {
      TimesIsProduct(n - 1, gap);
      assert n as real * gap == (n - 1) as real * gap + gap;
    }
  }

  lemma AtMost(n: nat, gap: real, span: real)
    requires 0.0 < gap && Times(n, gap) <= span
    ensures n <= (span / gap).Floor
  {
    TimesIsProduct(n, gap);
    assert n as real <= span / gap;
  }

  /** However long nothing succeeds, a span of time holds at most so many requests let through. */
  lemma GrantRateBound(st: Settings, b: Breaker, calls: seq<Call>, i: nat, j: nat, span: real)
    requires Sound(b) && !b.mode.Closed? && NoSuccess(calls) && ClockMonotone(calls) && 0.0 < st.resetTimeout
    requires i <= j < |GrantTimes(st, b, calls)|
    requires GrantTimes(st, b, calls)[j] - GrantTimes(st, b, calls)[i] <= span
    ensures j - i + 1 <= (span / st.resetTimeout).Floor + 1
  {
    GrantsAreSpaced(st, b, calls);
    SpacedApart(GrantTimes(st, b, calls), st.resetTimeout, i, j);
    AtMost(j - i, st.resetTimeout, span);
  }

  /** The first request let through after an opening is at least the reset timeout after it. */
  lemma {:induction false} FirstGrantWaits(st: Settings, b: Breaker, calls: seq<Call>)
    requires b.mode.Open? && b.openedAt.Some? && !b.probing && NoSuccess(calls) && ClockMonotone(calls)
    requires calls != [] ==> b.openedAt.value <= calls[0].now
    ensures var grants := GrantTimes(st, b, calls); grants != [] ==> b.openedAt.value + st.resetTimeout <= grants[0]
    ensures var after := After(st, b, calls); GrantTimes(st, b, calls) == [] ==>
      after.mode.Open? && !after.probing && after.openedAt.Some? && b.openedAt.value <= after.openedAt.value
  {
    if calls != [] {
      FirstGrantWaits(st, b, calls[..|calls| - 1]);
      assert b.openedAt.value <= calls[|calls| - 1].now;
    }
  }

  class CircuitBreaker {
    const settings: Settings
    var mode: Mode
    var failureCount: nat
    var openedAt: Option<real>
    var halfOpenProbeActive: bool

    ghost function Value(): Breaker
      reads this
    {
      Breaker(mode, failureCount, openedAt, halfOpenProbeActive)
    }

    constructor (settings: Settings)
      ensures this.settings == settings && Value() == FRESH
    {
      this.settings := settings;
      mode, failureCount, openedAt, halfOpenProbeActive := Closed, 0, None, false;
    }

    method AllowRequest(now: real) returns (granted: bool)
      modifies this
      ensures granted == Grants(settings, old(Value()), Allow(now))
      ensures Value() == Next(settings, old(Value()), Allow(now))
    {
      match mode {
        case Closed =>
          return true;
        case Open =>
          if openedAt.None? {
            openedAt := Some(now);
            return false;
          }
          if now - openedAt.value < settings.resetTimeout {
            return false;
          }
          mode := HalfOpen;
          halfOpenProbeActive := true;
          return true;
        case HalfOpen =>
          if halfOpenProbeActive {
            return false;
          }
          halfOpenProbeActive := true;
          return true;
      }
    }

    method RecordSuccess(ghost now: real)
      modifies this
      ensures Value() == Next(settings, old(Value()), Success(now))
    {
      mode, failureCount, openedAt, halfOpenProbeActive := Closed, 0, None, false;
    }

    method RecordFailure(now: real)
      modifies this
      ensures Value() == Next(settings, old(Value()), Failure(now))
    {
      failureCount := failureCount + 1;
      halfOpenProbeActive := false;
      if mode.HalfOpen? || settings.failureThreshold <= failureCount {
        mode := Open;
        openedAt := Some(now);
      }
    }
  }
}

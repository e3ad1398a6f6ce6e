/**
  The three-state circuit breaker (resilience.py).

  `Status` is the value of a breaker's fields and `Step` what one atomic call does to it; a history is any
  interleaving of such calls by any number of callers.  The clock reading of each call is part of the event.
 */
module Breaker {

  datatype State = Closed | Open | HalfOpen

  datatype Config = Config(failureThreshold: int, recoveryTimeout: real, successThreshold: int)

  datatype Status = Status(state: State, failures: int, successes: int, openedAt: real)

  const FRESH := Status(Closed, 0, 0, 0.0)

  /** Reading the state: an open breaker whose window has elapsed becomes half-open. */
  function Observe(c: Config, b: Status, now: real): Status {
    if b.state.Open? && now - b.openedAt >= c.recoveryTimeout then b.(state := HalfOpen, successes := 0) else b
  }

  function Trip(b: Status, now: real): Status {
    b.(state := Open, openedAt := now, successes := 0)
  }

  function Reset(b: Status): Status {
    b.(state := Closed, failures := 0, successes := 0)
  }

  function OnSuccess(c: Config, b: Status): Status {
    if !b.state.HalfOpen? then b.(failures := 0)
    else if b.successes + 1 >= c.successThreshold then Reset(b)
    else b.(successes := b.successes + 1)
  }

  /** Whether a failure recorded now trips the breaker. */
  predicate Trips(c: Config, b: Status) {
    b.state.HalfOpen? || b.failures + 1 >= c.failureThreshold
  }

  function OnFailure(c: Config, b: Status, now: real): Status {
    if b.state.HalfOpen? then Trip(b, now)
    else
      var counted := b.(failures := b.failures + 1);
      if counted.failures >= c.failureThreshold then Trip(counted, now) else counted
  }

  class CircuitBreaker {
    const config: Config
    var state: State
    var failures: int
    var successes: int
    var openedAt: real

    function Value(): Status reads this { Status(state, failures, successes, openedAt) }

    constructor (config: Config)
      ensures this.config == config && Value() == FRESH
    {
      this.config := config;
      state, failures, successes, openedAt := Closed, 0, 0, 0.0;
    }

    method CurrentState(now: real) returns (s: State)
      modifies this
      ensures Value() == Observe(config, old(Value()), now) && s == state
    {
      if state == Open && now - openedAt >= config.recoveryTimeout {
        state := HalfOpen;
        successes := 0;
      }
      s := state;
    }

    method Allow(now: real) returns (granted: bool)
      modifies this
      ensures Value() == Observe(config, old(Value()), now) && (granted <==> !state.Open?)
    {
      var s := CurrentState(now);
      granted := s != Open;
    }

    method RecordSuccess()
      modifies this
      ensures Value() == OnSuccess(config, old(Value()))
    {
      if state == HalfOpen {
        successes := successes + 1;
        if successes >= config.successThreshold {
          ResetFields();
        }
      } else {
        failures := 0;
      }
    }

    method RecordFailure(now: real)
      modifies this
      ensures Value() == OnFailure(config, old(Value()), now)
    {
      if state == HalfOpen {
        TripFields(now);
        return;
      }
      failures := failures + 1;
      if failures >= config.failureThreshold {
        TripFields(now);
      }
    }

    method TripFields(now: real)
      modifies this
      ensures Value() == Trip(old(Value()), now)
    {
      state, openedAt, successes := Open, now, 0;
    }

    method ResetFields()
      modifies this
      ensures Value() == Reset(old(Value()))
    {
      state, failures, successes := Closed, 0, 0;
    }
  }

  // ---------------------------------------------------------------- histories

  /** A call of `allow` (or a read of `state`), or a recorded outcome. */
  datatype Event = Check(at: real) | Succeeded(at: real) | Failed(at: real)

  function Step(c: Config, b: Status, e: Event): Status {
    match e
    case Check(now) => Observe(c, b, now)
    case Succeeded(_) => OnSuccess(c, b)
    case Failed(now) => OnFailure(c, b, now)
  }

  function Run(c: Config, b: Status, es: seq<Event>): Status {
    if es == [] then b else Step(c, Run(c, b, es[..|es| - 1]), es[|es| - 1])
  }

  /** The status of a fresh breaker after the first `n` events. */
  function After(c: Config, es: seq<Event>, n: nat): Status
    requires n <= |es|
  {
    if n == 0 then FRESH else Step(c, After(c, es, n - 1), es[n - 1])
  }

  lemma {:induction false} AfterIsRun(c: Config, es: seq<Event>, n: nat)
    requires n <= |es|
    ensures After(c, es, n) == Run(c, FRESH, es[..n])
  {
    if n > 0 {
      AfterIsRun(c, es, n - 1);
      assert es[..n][..n - 1] == es[..n - 1];
    }
  }

  lemma {:induction false} RunConcat(c: Config, b: Status, xs: seq<Event>, ys: seq<Event>)
    ensures Run(c, b, xs + ys) == Run(c, Run(c, b, xs), ys)
  {
    if ys == [] {
      assert xs + ys == xs;
    } else {
      var n := |ys| - 1;
      assert (xs + ys)[..|xs + ys| - 1] == xs + ys[..n];
      RunConcat(c, b, xs, ys[..n]);
    }
  }

  /** The recorded failures after the last recorded success, among the first `n` events. */
  function TrailingFailures(es: seq<Event>, n: nat): nat
    requires n <= |es|
  {
    if n == 0 then 0
    else match es[n - 1]
      case Check(_) => TrailingFailures(es, n - 1)
      case Succeeded(_) => 0
      case Failed(_) => TrailingFailures(es, n - 1) + 1
  }

  /** The successes recorded by the events k, ..., n - 1. */
  function SuccessCount(es: seq<Event>, k: nat, n: nat): nat
    requires k <= n <= |es|
  {
    if k == n then 0 else SuccessCount(es, k, n - 1) + if es[n - 1].Succeeded? then 1 else 0
  }

  ghost predicate NoFailure(es: seq<Event>, k: nat, n: nat)
    requires k <= n <= |es|
  {
    forall i :: k <= i < n ==> !es[i].Failed?
  }

  /** A threshold below one acts like one. */
  function AtLeastOne(threshold: int): int {
    if threshold < 1 then 1 else threshold
  }

  /** Event `k - 1` turned the open breaker half-open, and it has stayed so up to `n`. */
  ghost predicate HalfOpenSince(c: Config, es: seq<Event>, k: nat, n: nat)
    requires n <= |es|
  {
    && 0 < k <= n && es[k - 1].Check? && After(c, es, k - 1).state.Open?
    && forall j :: k <= j <= n ==> After(c, es, j).state.HalfOpen?
  }

  /**
    What the fields mean, in every interleaving of calls: while closed, `failures` counts the failures after the last
    success of the whole history and is below the threshold; while half-open, `successes` counts the successes since
    the breaker became half-open, with no failure among them, and is below its threshold; otherwise it is zero.
   */
  lemma {:induction false} FieldsMeanHistory(c: Config, es: seq<Event>, n: nat) returns (k: nat)
    requires n <= |es|
    ensures var b := After(c, es, n);
            && (b.state.Closed? ==> b.failures == TrailingFailures(es, n) < AtLeastOne(c.failureThreshold))
            && (b.state.HalfOpen? ==>
                  && HalfOpenSince(c, es, k, n) && NoFailure(es, k, n)
                  && b.successes == SuccessCount(es, k, n) < AtLeastOne(c.successThreshold))
            && (!b.state.HalfOpen? ==> b.successes == 0)
  {
    k := 0;
    if n > 0 {
      k := FieldsMeanHistory(c, es, n - 1);
      if After(c, es, n - 1).state.Open? && After(c, es, n).state.HalfOpen? {
        k := n;
      }
    }
  }

  // ---------------------------------------------------------------- the open window

  ghost predicate Monotone(es: seq<Event>) {
    forall i, j :: 0 <= i < j < |es| ==> es[i].at <= es[j].at
  }

  /** Event `i` trips the breaker. */
  ghost predicate TripsAt(c: Config, es: seq<Event>, i: nat) {
    i < |es| && es[i].Failed? && Trips(c, After(c, es, i))
  }

  /** From a trip on, the breaker is open since then or later, or its window has elapsed on the clock. */
  lemma {:induction false} OpenOrElapsed(c: Config, es: seq<Event>, i: nat, m: nat)
    requires Monotone(es) && TripsAt(c, es, i) && i < m <= |es|
    ensures var b := After(c, es, m);
            || (b.state.Open? && es[i].at <= b.openedAt <= es[m - 1].at)
            || es[m - 1].at >= es[i].at + c.recoveryTimeout
  {
    if i + 1 < m {
      OpenOrElapsed(c, es, i, m - 1);
    }
  }

  /** On every run with a monotone clock, no call is admitted within `recoveryTimeout` of any earlier trip. */
  lemma NoAdmissionInWindow(c: Config, es: seq<Event>, i: nat, j: nat)
    requires Monotone(es) && TripsAt(c, es, i) && i < j < |es|
    requires es[j].Check? && !After(c, es, j + 1).state.Open?
    ensures es[j].at >= es[i].at + c.recoveryTimeout
  {
    OpenOrElapsed(c, es, i, j);
  }

  /**
    From open back to closed, on every run: there was a moment at which the breaker became half-open, and from there
    to its closing it stayed half-open, recorded no failure and exactly the required number of successes.
   */
  lemma {:induction false} ClosesOnlyAfterTrial(c: Config, es: seq<Event>, i: nat, n: nat) returns (k: nat, m: nat)
    requires i < n <= |es| && After(c, es, i).state.Open? && After(c, es, n).state.Closed?
    ensures i < k < m <= n && HalfOpenSince(c, es, k, m - 1) && After(c, es, m).state.Closed?
    ensures SuccessCount(es, k, m) == AtLeastOne(c.successThreshold) && NoFailure(es, k, m)
  {
    if After(c, es, n - 1).state.Closed? {
      k, m := ClosesOnlyAfterTrial(c, es, i, n - 1);
    } else {
      m := n;
      k := FieldsMeanHistory(c, es, n - 1);
    }
  }

  /** Event `i` asks for a call, and the call is admitted. */
  predicate AdmitsAt(c: Config, es: seq<Event>, i: nat)
    requires i < |es|
  {
    es[i].Check? && !After(c, es, i + 1).state.Open?
  }

  /** While the breaker is open, it counts its window from the latest trip. */
  lemma {:induction false} OpenSinceLatestTrip(c: Config, es: seq<Event>, n: nat) returns (i: nat)
    requires n <= |es| && After(c, es, n).state.Open?
    ensures i < n && TripsAt(c, es, i) && After(c, es, n).openedAt == es[i].at
    ensures forall j :: i < j < n ==> !TripsAt(c, es, j)
  {
    if TripsAt(c, es, n - 1) {
      i := n - 1;
    } else {
      i := OpenSinceLatestTrip(c, es, n - 1);
    }
  }

  /** The window of every trip before event `n` has elapsed when that event asks. */
  ghost predicate WindowsElapsed(c: Config, es: seq<Event>, n: nat)
    requires n < |es|
  {
    forall i :: 0 <= i < n && TripsAt(c, es, i) ==> es[n].at >= es[i].at + c.recoveryTimeout
  }

  /** On every run with a monotone clock a call is admitted if and only if the window of every earlier trip is over. */
  lemma AdmittedIffWindowsElapsed(c: Config, es: seq<Event>, n: nat)
    requires Monotone(es) && n < |es| && es[n].Check?
    ensures AdmitsAt(c, es, n) <==> WindowsElapsed(c, es, n)
  {
    if AdmitsAt(c, es, n) {
      forall i | 0 <= i < n && TripsAt(c, es, i) ensures es[n].at >= es[i].at + c.recoveryTimeout {
        NoAdmissionInWindow(c, es, i, n);
      }
    } else {
      var i := OpenSinceLatestTrip(c, es, n);
    }
  }

  // ---------------------------------------------------------------- what every event does

  /**
    The failures that count towards the next trip: those since the last success, whether the breaker was closed or
    open, but not those of trial calls; a trial success does not clear them unless it closes the breaker.
   */
  function CountedFailures(c: Config, es: seq<Event>, n: nat): nat
    requires n <= |es|
  {
    if n == 0 then 0
    else
      var before, trial := CountedFailures(c, es, n - 1), After(c, es, n - 1).state.HalfOpen?;
      match es[n - 1]
      case Check(_) => before
      case Succeeded(_) => if trial && !After(c, es, n).state.Closed? then before else 0
      case Failed(_) => if trial then before else before + 1
  }

  lemma {:induction false} FailuresAreCounted(c: Config, es: seq<Event>, n: nat)
    requires n <= |es|
    ensures After(c, es, n).failures == CountedFailures(c, es, n)
  {
    if n > 0 {
      FailuresAreCounted(c, es, n - 1);
    }
  }

  /** A failure trips the breaker exactly when it is that of a trial call or the count reaches the threshold. */
  lemma TripsIff(c: Config, es: seq<Event>, n: nat)
    requires n < |es| && es[n].Failed?
    ensures TripsAt(c, es, n)
       <==> After(c, es, n).state.HalfOpen? || CountedFailures(c, es, n + 1) >= AtLeastOne(c.failureThreshold)
    ensures TripsAt(c, es, n) ==> After(c, es, n + 1).state.Open? && After(c, es, n + 1).openedAt == es[n].at
    ensures !TripsAt(c, es, n) ==> After(c, es, n + 1).state == After(c, es, n).state
  {
    FailuresAreCounted(c, es, n);
  }

  /**
    The state after every event, in terms of what happened before: asking turns an open breaker half-open exactly
    when the window of every trip is over; a failure opens it exactly when it trips; a success closes it exactly when
    it is the last one required of the trial calls; and nothing else changes the state.
   */
  lemma NextState(c: Config, es: seq<Event>, n: nat) returns (k: nat)
    requires Monotone(es) && n < |es|
    ensures After(c, es, n).state.HalfOpen? ==> HalfOpenSince(c, es, k, n)
    ensures var was := After(c, es, n).state;
            After(c, es, n + 1).state ==
            match es[n]
            case Check(_) => if was.Open? && WindowsElapsed(c, es, n) then HalfOpen else was
            case Failed(_) => if TripsAt(c, es, n) then Open else was
            case Succeeded(_) =>
              if was.HalfOpen? && SuccessCount(es, k, n + 1) >= AtLeastOne(c.successThreshold) then Closed else was
  {
    k := FieldsMeanHistory(c, es, n);
    if es[n].Check? {
      AdmittedIffWindowsElapsed(c, es, n);
    }
  }

  // ---------------------------------------------------------------- how many calls are admitted

  /** The calls admitted by the events k, ..., n - 1. */
  function Admissions(c: Config, es: seq<Event>, k: nat, n: nat): nat
    requires k <= n <= |es|
  {
    if k == n then 0 else Admissions(c, es, k, n - 1) + if AdmitsAt(c, es, n - 1) then 1 else 0
  }

  /** While half-open the breaker admits every call, so any number of them: asking changes nothing. */
  lemma {:induction false} TrialsUnlimited(c: Config, es: seq<Event>, k: nat, n: nat)
    requires k <= n <= |es| && After(c, es, k).state.HalfOpen?
    requires forall i :: k <= i < n ==> es[i].Check?
    ensures After(c, es, n) == After(c, es, k) && Admissions(c, es, k, n) == n - k
  {
    if k < n {
      TrialsUnlimited(c, es, k, n - 1);
    }
  }

  /** Event `i` admits a call, and the next event asks for another one before any outcome is recorded. */
  predicate Overtakes(c: Config, es: seq<Event>, i: nat) {
    i + 1 < |es| && AdmitsAt(c, es, i) && es[i + 1].Check?
  }

  ghost predicate RecordedBeforeNext(c: Config, es: seq<Event>) {
    forall i: nat :: !Overtakes(c, es, i)
  }

  /** Then the trial calls of a half-open phase are one ahead of the recorded successes at most. */
  lemma {:induction false} TrialsFollowSuccesses(c: Config, es: seq<Event>, k: nat, n: nat)
    requires RecordedBeforeNext(c, es) && n <= |es| && HalfOpenSince(c, es, k, n)
    ensures Admissions(c, es, k - 1, n) <= SuccessCount(es, k, n) + if es[n - 1].Check? then 1 else 0
  {
    if k < n {
      TrialsFollowSuccesses(c, es, k, n - 1);
      assert After(c, es, n).state.HalfOpen?;
      assert !Overtakes(c, es, n - 2);
    } else {
      assert Admissions(c, es, k - 1, k - 1) == 0;
    }
  }

  /** So if outcomes are recorded before the next call is asked for, a phase admits at most `successThreshold`. */
  lemma TrialsLimited(c: Config, es: seq<Event>, k: nat, n: nat)
    requires RecordedBeforeNext(c, es) && n <= |es| && HalfOpenSince(c, es, k, n)
    ensures Admissions(c, es, k - 1, n) <= AtLeastOne(c.successThreshold)
  {
    PhaseSuccesses(c, es, k, n);
    TrialsFollowSuccesses(c, es, k, n);
  }

  /** Calls that were admitted and whose outcome has not been recorded, after the first `n` events. */
  function Outstanding(c: Config, es: seq<Event>, n: nat): int
    requires n <= |es|
  {
    if n == 0 then 0
    else Outstanding(c, es, n - 1) + if AdmitsAt(c, es, n - 1) then 1 else if es[n - 1].Check? then 0 else -1
  }

  /** Every outcome belongs to an admitted call, and at no time are more than `most` calls outstanding. */
  ghost predicate AtMostOutstanding(c: Config, es: seq<Event>, most: nat) {
    forall n :: 0 <= n <= |es| ==> 0 <= Outstanding(c, es, n) <= most
  }

  /** In a half-open phase every admitted call has succeeded or is still outstanding. */
  lemma {:induction false} TrialsAccounted(c: Config, es: seq<Event>, k: nat, n: nat)
    requires n <= |es| && HalfOpenSince(c, es, k, n) && NoFailure(es, k, n)
    ensures Admissions(c, es, k - 1, n)
         == Outstanding(c, es, n) - Outstanding(c, es, k - 1) + SuccessCount(es, k, n)
  {
    if k < n {
      TrialsAccounted(c, es, k, n - 1);
    } else {
      assert Admissions(c, es, k - 1, k - 1) == 0;
    }
  }

  lemma PhaseSuccesses(c: Config, es: seq<Event>, k: nat, n: nat)
    requires n <= |es| && HalfOpenSince(c, es, k, n)
    ensures NoFailure(es, k, n) && SuccessCount(es, k, n) < AtLeastOne(c.successThreshold)
  {
    var k' := FieldsMeanHistory(c, es, n);
    assert k' == k by {
      assert After(c, es, k - 1).state.Open? && After(c, es, k' - 1).state.Open?;
    }
  }

  /** With at most `most` calls outstanding, a half-open phase admits at most successThreshold - 1 + `most` calls. */
  lemma OutstandingLimitsTrials(c: Config, es: seq<Event>, most: nat, k: nat, n: nat)
    requires AtMostOutstanding(c, es, most) && n <= |es| && HalfOpenSince(c, es, k, n)
    ensures Admissions(c, es, k - 1, n) <= AtLeastOne(c.successThreshold) - 1 + most
  {
    PhaseSuccesses(c, es, k, n);
    TrialsAccounted(c, es, k, n);
    assert 0 <= Outstanding(c, es, k - 1) && Outstanding(c, es, n) <= most;
  }

  // ---------------------------------------------------------------- a history that reaches these limits

  /**
    Calls that fail, one after the other, and trip the breaker; then trial calls that succeed, one after the other,
    until one success is missing; then more trial calls without an outcome.
   */
  function TrialEvent(c: Config, t0: real, i: nat): Event {
    var f := AtLeastOne(c.failureThreshold);
    if i < 2 * f then (if i % 2 == 0 then Check(t0) else Failed(t0))
    else if i % 2 == 1 && i < 2 * (f + AtLeastOne(c.successThreshold) - 1) then Succeeded(TrialTime(c, t0))
    else Check(TrialTime(c, t0))
  }

  function TrialTime(c: Config, t0: real): real {
    if c.recoveryTimeout < 0.0 then t0 else t0 + c.recoveryTimeout
  }

  function TrialHistory(c: Config, t0: real, most: nat): (es: seq<Event>)
    ensures |es| == 2 * (AtLeastOne(c.failureThreshold) + AtLeastOne(c.successThreshold) - 1) + most
    ensures forall i :: 0 <= i < |es| ==> es[i] == TrialEvent(c, t0, i)
  {
    seq(2 * (AtLeastOne(c.failureThreshold) + AtLeastOne(c.successThreshold) - 1) + most,
        i requires 0 <= i => TrialEvent(c, t0, i))
  }

  ghost predicate OutstandingIs(c: Config, es: seq<Event>, n: nat, count: nat) {
    n <= |es| && Outstanding(c, es, n) == count
  }

  /** An admitted call and then its outcome. */
  lemma CallAndOutcome(c: Config, es: seq<Event>, n: nat)
    requires n + 2 <= |es| && OutstandingIs(c, es, n, 0) && AdmitsAt(c, es, n) && !es[n + 1].Check?
    ensures After(c, es, n + 2) == Step(c, Observe(c, After(c, es, n), es[n].at), es[n + 1])
    ensures After(c, es, n + 1) == Observe(c, After(c, es, n), es[n].at)
    ensures OutstandingIs(c, es, n + 1, 1) && OutstandingIs(c, es, n + 2, 0)
  {
    assert Outstanding(c, es, n + 1) == 1;
  }

  lemma {:induction false} TrialHistoryTrips(c: Config, t0: real, most: nat, j: nat)
    requires j <= AtLeastOne(c.failureThreshold)
    ensures var es, b := TrialHistory(c, t0, most), After(c, TrialHistory(c, t0, most), 2 * j);
            && OutstandingIs(c, es, 2 * j, 0) && b.failures == j
            && (0 < j ==> OutstandingIs(c, es, 2 * j - 1, 1))
            && if j < AtLeastOne(c.failureThreshold) then b.state.Closed? else b.state.Open? && b.openedAt == t0
  {
    if 0 < j {
      TrialHistoryTrips(c, t0, most, j - 1);
      var es := TrialHistory(c, t0, most);
      FailingPair(c, t0, j - 1);
      assert es[2 * j - 2] == Check(t0) && es[2 * j - 1] == Failed(t0);
      assert AdmitsAt(c, es, 2 * j - 2);
      CallAndOutcome(c, es, 2 * j - 2);
    }
  }

  lemma FailingPair(c: Config, t0: real, j: nat)
    requires j < AtLeastOne(c.failureThreshold)
    ensures TrialEvent(c, t0, 2 * j) == Check(t0) && TrialEvent(c, t0, 2 * j + 1) == Failed(t0)
  {
  }

  lemma SucceedingPair(c: Config, t0: real, j: nat)
    requires j + 1 < AtLeastOne(c.successThreshold)
    ensures var i := 2 * (AtLeastOne(c.failureThreshold) + j);
            TrialEvent(c, t0, i) == Check(TrialTime(c, t0)) && TrialEvent(c, t0, i + 1) == Succeeded(TrialTime(c, t0))
  {
  }

  /** After the trial call number `j` has succeeded. */
  lemma {:induction false} TrialHistoryTries(c: Config, t0: real, most: nat, j: nat)
    requires j < AtLeastOne(c.successThreshold)
    ensures var es, n := TrialHistory(c, t0, most), 2 * (AtLeastOne(c.failureThreshold) + j);
            && OutstandingIs(c, es, n, 0)
            && (if j == 0 then After(c, es, n).state.Open? && After(c, es, n).openedAt == t0
                else After(c, es, n).state.HalfOpen? && After(c, es, n).successes == j)
            && (0 < j ==> After(c, es, n - 1).state.HalfOpen? && OutstandingIs(c, es, n - 1, 1))
  {
    var es, n := TrialHistory(c, t0, most), 2 * (AtLeastOne(c.failureThreshold) + j);
    if j == 0 {
      TrialHistoryTrips(c, t0, most, AtLeastOne(c.failureThreshold));
    } else {
      TrialHistoryTries(c, t0, most, j - 1);
      SucceedingPair(c, t0, j - 1);
      assert es[n - 2] == Check(TrialTime(c, t0)) && es[n - 1] == Succeeded(TrialTime(c, t0));
      assert AdmitsAt(c, es, n - 2);
      CallAndOutcome(c, es, n - 2);
    }
  }

  /** After `j` more trial calls without an outcome. */
  lemma {:induction false} TrialHistoryWaits(c: Config, t0: real, most: nat, j: nat)
    requires j <= most
    ensures var es := TrialHistory(c, t0, most);
            var n := |es| - most + j;
            OutstandingIs(c, es, n, j) && (0 < j ==> After(c, es, n).state.HalfOpen?)
    ensures 0 < j ==>
              var n := |TrialHistory(c, t0, most)| - most + j;
              After(c, TrialHistory(c, t0, most), n).successes == AtLeastOne(c.successThreshold) - 1
  {
    if j == 0 || j == 1 {
      TrialHistoryTries(c, t0, most, AtLeastOne(c.successThreshold) - 1);
    }
    if 0 < j {
      var es := TrialHistory(c, t0, most);
      TrialHistoryWaits(c, t0, most, j - 1);
      assert es[|es| - most + j - 1] == Check(TrialTime(c, t0));
    }
  }

  /** Position `n` lies among the failing calls, the succeeding ones, or the last ones. */
  lemma TrialHistoryAt(c: Config, t0: real, most: nat, n: nat)
    requires 0 < most && n <= |TrialHistory(c, t0, most)|
    ensures 0 <= Outstanding(c, TrialHistory(c, t0, most), n) <= most
    ensures 2 * AtLeastOne(c.failureThreshold) < n ==> After(c, TrialHistory(c, t0, most), n).state.HalfOpen?
  {
    var es, f, m := TrialHistory(c, t0, most), AtLeastOne(c.failureThreshold), (n + 1) / 2;
    var waits := |es| - most;
    if waits < n {
      TrialHistoryWaits(c, t0, most, n - waits);
    } else if m <= f {
      TrialHistoryTrips(c, t0, most, m);
      assert n == 2 * m || n == 2 * m - 1;
    } else {
      TrialHistoryTries(c, t0, most, m - f);
      assert n == 2 * m || n == 2 * m - 1;
    }
  }

  lemma TrialHistoryOrdered(c: Config, t0: real, most: nat)
    ensures Monotone(TrialHistory(c, t0, most))
    ensures most <= 1 ==> RecordedBeforeNext(c, TrialHistory(c, t0, most))
  {
    var es := TrialHistory(c, t0, most);
    forall i: nat ensures most <= 1 ==> !Overtakes(c, es, i) {
      if i + 1 < |es| {
        assert es[i] == TrialEvent(c, t0, i) && es[i + 1] == TrialEvent(c, t0, i + 1);
      }
    }
  }

  /**
    The limits are reached, for every configuration and every number of outstanding calls; that of `TrialsLimited`
    when it is one.
   */
  lemma TrialsLimitReached(c: Config, t0: real, most: nat) returns (es: seq<Event>, k: nat)
    requires 0 < most
    ensures Monotone(es) && AtMostOutstanding(c, es, most) && HalfOpenSince(c, es, k, |es|)
    ensures Admissions(c, es, k - 1, |es|) == AtLeastOne(c.successThreshold) - 1 + most
    ensures most == 1 ==> RecordedBeforeNext(c, es)
  {
    es, k := TrialHistory(c, t0, most), 2 * AtLeastOne(c.failureThreshold) + 1;
    TrialHistoryOrdered(c, t0, most);
    forall n | 0 <= n <= |es|
      ensures 0 <= Outstanding(c, es, n) <= most && (k <= n ==> After(c, es, n).state.HalfOpen?)
    {
      TrialHistoryAt(c, t0, most, n);
    }
    TrialHistoryTrips(c, t0, most, AtLeastOne(c.failureThreshold));
    TrialHistoryWaits(c, t0, most, most);
    var k' := FieldsMeanHistory(c, es, |es|);
    assert k' == k by {
      assert After(c, es, k - 1).state.Open? && After(c, es, k' - 1).state.Open?;
    }
    TrialsAccounted(c, es, k, |es|);
  }

  // ---------------------------------------------------------------- load on a failing dependency

  /** One failing attempt after the other: an admitted call fails next; otherwise the next event asks for a call. */
  predicate FitsAt(c: Config, es: seq<Event>, i: nat)
    requires i < |es|
  {
    if 0 < i && AdmitsAt(c, es, i - 1) then es[i].Failed? else es[i].Check?
  }

  ghost predicate FailingAttempts(c: Config, es: seq<Event>) {
    forall i :: 0 <= i < |es| ==> FitsAt(c, es, i)
  }

  /** All in the time from `t0` to `t`. */
  ghost predicate Between(es: seq<Event>, t0: real, t: real) {
    forall i :: 0 <= i < |es| ==> t0 <= es[i].at <= t
  }

  /** The length of `k` recovery windows. */
  function Windows(c: Config, k: nat): real {
    if k == 0 then 0.0 else Windows(c, k - 1) + c.recoveryTimeout
  }

  lemma {:induction false} WindowsIsProduct(c: Config, k: nat)
    ensures Windows(c, k) == k as real * c.recoveryTimeout
  {
    if k > 0 {
      WindowsIsProduct(c, k - 1);
      OneMore((k - 1) as real, c.recoveryTimeout);
    }
  }

  lemma OneMore(a: real, r: real)
    ensures (a + 1.0) * r == a * r + r
  {
  }

  /** An admitted call whose failure has yet to be recorded. */
  predicate Pending(c: Config, es: seq<Event>, n: nat)
    requires n <= |es|
  {
    0 < n && AdmitsAt(c, es, n - 1)
  }

  lemma {:induction false} LoadInvariant(c: Config, es: seq<Event>, t0: real, t: real, n: nat)
    requires 0.0 < c.recoveryTimeout && n <= |es|
    requires FailingAttempts(c, es) && Monotone(es) && Between(es, t0, t)
    ensures var b, threshold := After(c, es, n), AtLeastOne(c.failureThreshold);
            var extra := Admissions(c, es, 0, n) - threshold;
            && (b.state.Closed? ==>
                  b.failures == Admissions(c, es, 0, n) - (if Pending(c, es, n) then 1 else 0) < threshold)
            && (b.state.Open? ==> 0 <= extra && b.openedAt >= t0 + Windows(c, extra))
            && (b.state.HalfOpen? ==> 0 < extra && Pending(c, es, n))
            && (0 <= extra ==> 0 < n && es[n - 1].at >= t0 + Windows(c, extra))
  {
    if 0 < n {
      LoadInvariant(c, es, t0, t, n - 1);
      assert FitsAt(c, es, n - 1);
    }
  }

  /**
    Load bound: of attempts that all fail, made one after the other from time `t0` on a fresh breaker, at most
    failureThreshold + floor((t - t0) / recoveryTimeout) are admitted by time `t`.
   */
  lemma LoadBound(c: Config, es: seq<Event>, t0: real, t: real)
    requires 0.0 < c.recoveryTimeout && t0 <= t
    requires FailingAttempts(c, es) && Monotone(es) && Between(es, t0, t)
    ensures Admissions(c, es, 0, |es|) <= AtLeastOne(c.failureThreshold) + ((t - t0) / c.recoveryTimeout).Floor
  {
    LoadInvariant(c, es, t0, t, |es|);
    var extra := Admissions(c, es, 0, |es|) - AtLeastOne(c.failureThreshold);
    WindowsWithin(c, if 0 <= extra then extra else 0, t - t0);
  }

  lemma WindowsWithin(c: Config, k: nat, d: real)
    requires 0.0 < c.recoveryTimeout && Windows(c, k) <= d
    ensures k <= (d / c.recoveryTimeout).Floor
  {
    WindowsIsProduct(c, k);
    DivideBound(k as real, c.recoveryTimeout, d);
  }

  lemma DivideBound(k: real, r: real, d: real)
    requires 0.0 < r && k * r <= d
    ensures k <= d / r
  {
    assert (d / r) * r == d;
  }

  /** `failureThreshold` failing attempts at once, and then one at the end of each window. */
  function AttemptTime(c: Config, t0: real, i: nat): real {
    var f := AtLeastOne(c.failureThreshold);
    t0 + Windows(c, if i < f then 0 else i - f + 1)
  }

  function LoadEvent(c: Config, t0: real, i: nat): Event {
    if i % 2 == 0 then Check(AttemptTime(c, t0, i / 2)) else Failed(AttemptTime(c, t0, i / 2))
  }

  function LoadHistory(c: Config, t0: real, k: nat): (es: seq<Event>)
    ensures |es| == 2 * (AtLeastOne(c.failureThreshold) + k)
    ensures forall i :: 0 <= i < |es| ==> es[i] == LoadEvent(c, t0, i)
  {
    seq(2 * (AtLeastOne(c.failureThreshold) + k), i requires 0 <= i => LoadEvent(c, t0, i))
  }

  /** After `n` of its attempts, all admitted. */
  ghost predicate Loaded(c: Config, t0: real, es: seq<Event>, n: nat)
    requires 2 * n <= |es|
  {
    var f, b := AtLeastOne(c.failureThreshold), After(c, es, 2 * n);
    && Admissions(c, es, 0, 2 * n) == n
    && (if n < f then b.state.Closed? && b.failures == n
        else b.state.Open? && b.openedAt == t0 + Windows(c, n - f))
    && forall i :: 0 <= i < 2 * n ==> FitsAt(c, es, i)
  }

  /** Attempt number `i` of the history. */
  ghost predicate AttemptAt(c: Config, t0: real, es: seq<Event>, i: nat) {
    && 2 * i + 1 < |es|
    && es[2 * i] == Check(AttemptTime(c, t0, i)) && es[2 * i + 1] == Failed(AttemptTime(c, t0, i))
  }

  lemma {:induction false} AttemptsRun(c: Config, t0: real, es: seq<Event>, n: nat)
    requires 2 * n <= |es| && forall i :: 0 <= i < n ==> AttemptAt(c, t0, es, i)
    ensures Loaded(c, t0, es, n)
  {
    if 0 < n {
      AttemptsRun(c, t0, es, n - 1);
      assert AttemptAt(c, t0, es, n - 1) && (1 < n ==> AttemptAt(c, t0, es, n - 2));
      LoadAttempt(c, t0, es, n - 1);
    }
  }

  lemma AttemptsOfHistory(c: Config, t0: real, k: nat, i: nat)
    requires i < AtLeastOne(c.failureThreshold) + k
    ensures AttemptAt(c, t0, LoadHistory(c, t0, k), i)
  {
    assert (2 * i) / 2 == i && (2 * i + 1) / 2 == i;
  }

  lemma TwoSteps(c: Config, es: seq<Event>, k: nat, n: nat)
    requires k <= n && n + 2 <= |es|
    ensures After(c, es, n + 2) == Step(c, Step(c, After(c, es, n), es[n]), es[n + 1])
    ensures Admissions(c, es, k, n + 2) == Admissions(c, es, k, n)
              + (if AdmitsAt(c, es, n) then 1 else 0) + if AdmitsAt(c, es, n + 1) then 1 else 0
  {
    assert After(c, es, n + 2) == Step(c, After(c, es, n + 1), es[n + 1]);
  }

  lemma LoadAttempt(c: Config, t0: real, es: seq<Event>, n: nat)
    requires 2 * n + 2 <= |es| && Loaded(c, t0, es, n)
    requires es[2 * n] == Check(AttemptTime(c, t0, n)) && es[2 * n + 1] == Failed(AttemptTime(c, t0, n))
    requires 0 < n ==> es[2 * n - 1].Failed?
    ensures Loaded(c, t0, es, n + 1)
  {
    TwoSteps(c, es, 0, 2 * n);
    assert FitsAt(c, es, 2 * n) && FitsAt(c, es, 2 * n + 1);
  }

  lemma {:induction false} AttemptTimesGrow(c: Config, t0: real, i: nat, j: nat)
    requires 0.0 < c.recoveryTimeout && i <= j
    ensures AttemptTime(c, t0, i) <= AttemptTime(c, t0, j)
  {
    if i < j {
      AttemptTimesGrow(c, t0, i, j - 1);
    }
  }

  /** That bound is reached, at every time. */
  lemma LoadBoundReached(c: Config, t0: real, t: real) returns (es: seq<Event>)
    requires 0.0 < c.recoveryTimeout && t0 <= t
    ensures FailingAttempts(c, es) && Monotone(es) && Between(es, t0, t)
    ensures Admissions(c, es, 0, |es|) == AtLeastOne(c.failureThreshold) + ((t - t0) / c.recoveryTimeout).Floor
  {
    var k := WholeWindows(c, t - t0);
    es := LoadHistory(c, t0, k);
    var n := AtLeastOne(c.failureThreshold) + k;
    forall i | 0 <= i < n ensures AttemptAt(c, t0, es, i) {
      AttemptsOfHistory(c, t0, k, i);
    }
    AttemptsRun(c, t0, es, n);
    LoadHistoryOrdered(c, t0, k);
  }

  lemma LoadHistoryOrdered(c: Config, t0: real, k: nat)
    requires 0.0 < c.recoveryTimeout
    ensures Monotone(LoadHistory(c, t0, k)) && Between(LoadHistory(c, t0, k), t0, t0 + Windows(c, k))
  {
    var es := LoadHistory(c, t0, k);
    forall i, j | 0 <= i <= j < |es| ensures es[i].at <= es[j].at {
      AttemptTimesGrow(c, t0, i / 2, j / 2);
    }
    forall i | 0 <= i < |es| ensures t0 <= es[i].at <= t0 + Windows(c, k) {
      AttemptTimesGrow(c, t0, 0, i / 2);
      AttemptTimesGrow(c, t0, i / 2, AtLeastOne(c.failureThreshold) + k - 1);
    }
  }

  lemma WholeWindows(c: Config, d: real) returns (k: nat)
    requires 0.0 < c.recoveryTimeout && 0.0 <= d
    ensures k == (d / c.recoveryTimeout).Floor && Windows(c, k) <= d
  {
    k := NonNegativeFloor(c.recoveryTimeout, d);
    WindowsIsProduct(c, k);
  }

  lemma NonNegativeFloor(r: real, d: real) returns (k: nat)
    requires 0.0 < r && 0.0 <= d
    ensures k == (d / r).Floor && k as real * r <= d
  {
    var q := d / r;
    assert q * r == d;
    assert 0.0 <= q;
    k := q.Floor;
    assert (q - k as real) * r >= 0.0;
  }
}

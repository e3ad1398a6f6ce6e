/**
  The retry loop with its exponential backoff and optional breaker (resilience.py).

  `retry_async` awaits the function it retries and sleeps between attempts; during both, other callers may use the
  same breaker.  A `Turn` holds everything the outside world does around one attempt.
 */
module Retry {
  import opened Basics
  import opened Breaker

  /** An exception, with the names of all the types it is an instance of. */
  datatype Error = Error(types: set<string>, detail: string)

  /** `retryOn` names the exception types to retry. */
  datatype Policy = Policy(maxAttempts: int, baseDelay: real, maxDelay: real, multiplier: real, jitter: bool,
                           retryOn: set<string>)

  predicate Retryable(p: Policy, e: Error) {
    !(e.types !! p.retryOn)
  }

  datatype Outcome<T> = Returned(value: T) | Raised(error: Error)

  /**
    One attempt: what other callers do to the breaker before it and while it is awaited, the clock readings of
    `allow` and of the recording, how the awaited function ends, and the random number drawn for the sleep after it.
   */
  datatype Turn<T> = Turn(before: seq<Event>, checkAt: real, during: seq<Event>, outcome: Outcome<T>, recordAt: real,
                          draw: real)

  /** `Refused` is CircuitBreakerOpen; `NoAttempt` is the failed assertion of a policy without attempts. */
  datatype Result<T> = Ok(value: T) | Failed(error: Error) | Refused | NoAttempt

  /** The breaker a call starts with, if any. */
  datatype Guard = Unguarded | Guarded(config: Config, status: Status)

  // ---------------------------------------------------------------- specification

  /** What the breaker sees up to and including the `allow` of a turn, and what it sees of the rest of it. */
  function Opening<T>(t: Turn<T>): seq<Event> {
    t.before + [Check(t.checkAt)]
  }

  function Closing<T>(p: Policy, t: Turn<T>): seq<Event> {
    t.during + match t.outcome
               case Returned(_) => [Succeeded(t.recordAt)]
               case Raised(e) => if Retryable(p, e) then [Event.Failed(t.recordAt)] else []
  }

  /** What the breaker sees of the first `n` turns. */
  function History<T>(p: Policy, world: seq<Turn<T>>, n: nat): seq<Event>
    requires n <= |world|
  {
    if n == 0 then []
    else History(p, world, n - 1) + Opening(world[n - 1]) + Closing(p, world[n - 1])
  }

  /** Whether the breaker admits the attempt of turn `i`, all earlier ones having been made. */
  ghost predicate Admits<T>(p: Policy, g: Guard, world: seq<Turn<T>>, i: nat)
    requires i < |world|
  {
    g.Guarded? ==> !Run(g.config, g.status, History(p, world, i) + Opening(world[i])).state.Open?
  }

  ghost predicate Retried<T>(p: Policy, world: seq<Turn<T>>, i: nat)
    requires i < |world|
  {
    world[i].outcome.Raised? && Retryable(p, world[i].outcome.error)
  }

  /**
    What a call of the retry loop is to do: `calls` attempts are made, each admitted by the breaker, all but the last
    ending in a retryable error; and the result says why it stopped there.
   */
  ghost predicate Describes<T>(p: Policy, g: Guard, world: seq<Turn<T>>, result: Result<T>, calls: nat)
    requires p.maxAttempts <= |world|
  {
    && (calls == 0 || calls <= p.maxAttempts)
    && (forall i :: 0 <= i < calls ==> Admits(p, g, world, i))
    && (forall i :: 0 <= i < calls - 1 ==> Retried(p, world, i))
    && match result
       case Ok(v) => 0 < calls && world[calls - 1].outcome == Returned(v)
       case Failed(e) =>
         && 0 < calls && world[calls - 1].outcome == Raised(e)
         && (Retryable(p, e) ==> calls == p.maxAttempts)
       case Refused =>
         && calls < p.maxAttempts && !Admits(p, g, world, calls)
         && (0 < calls ==> Retried(p, world, calls - 1))
       case NoAttempt => calls == 0 && p.maxAttempts < 1
  }

  /** The description determines the result and the number of calls. */
  lemma DescribesOne<T(!new)>(p: Policy, g: Guard, world: seq<Turn<T>>, r: Result<T>, n: nat, r': Result<T>, n': nat)
    requires p.maxAttempts <= |world|
    requires Describes(p, g, world, r, n) && Describes(p, g, world, r', n')
    ensures r == r' && n == n'
  {
    NotShorter(p, g, world, r, n, r', n');
    NotShorter(p, g, world, r', n', r, n);
  }

  lemma NotShorter<T(!new)>(p: Policy, g: Guard, world: seq<Turn<T>>, r: Result<T>, n: nat, r': Result<T>, n': nat)
    requires p.maxAttempts <= |world|
    requires Describes(p, g, world, r, n) && Describes(p, g, world, r', n')
    ensures n' <= n
  {
    if n < n' {
      KeepsGoing(p, g, world, r', n', n);
    }
  }

  lemma KeepsGoing<T(!new)>(p: Policy, g: Guard, world: seq<Turn<T>>, r: Result<T>, n: nat, i: nat)
    requires p.maxAttempts <= |world| && Describes(p, g, world, r, n) && i < n
    ensures Admits(p, g, world, i) && (0 < i ==> Retried(p, world, i - 1))
  {
  }

  /** The first `n` attempts are all made and all to be followed by another one, if the policy allows it. */
  ghost predicate Going<T>(p: Policy, g: Guard, world: seq<Turn<T>>, n: nat)
    requires n <= |world|
  {
    n == 0 || (Going(p, g, world, n - 1) && Admits(p, g, world, n - 1) && Retried(p, world, n - 1))
  }

  lemma {:induction false} GoingMeans<T(!new)>(p: Policy, g: Guard, world: seq<Turn<T>>, n: nat)
    requires n <= |world| && Going(p, g, world, n)
    ensures forall i :: 0 <= i < n ==> Admits(p, g, world, i) && Retried(p, world, i)
  {
    if n > 0 {
      GoingMeans(p, g, world, n - 1);
    }
  }

  lemma GoingExtend<T(!new)>(p: Policy, g: Guard, world: seq<Turn<T>>, n: nat)
    requires n < |world| && Going(p, g, world, n) && Admits(p, g, world, n) && Retried(p, world, n)
    ensures Going(p, g, world, n + 1)
  {
  }

  lemma StopsAfterAttempt<T(!new)>(p: Policy, g: Guard, world: seq<Turn<T>>, n: nat)
    requires n < p.maxAttempts <= |world| && Going(p, g, world, n) && Admits(p, g, world, n)
    ensures match world[n].outcome
            case Returned(v) => Describes(p, g, world, Ok(v), n + 1)
            case Raised(e) =>
              !Retryable(p, e) || n + 1 == p.maxAttempts ==> Describes(p, g, world, Result.Failed(e), n + 1)
    ensures Retried(p, world, n) ==> Going(p, g, world, n + 1)
  {
    GoingMeans(p, g, world, n);
  }

  lemma StopsRefused<T(!new)>(p: Policy, g: Guard, world: seq<Turn<T>>, n: nat)
    requires n < p.maxAttempts <= |world| && Going(p, g, world, n) && !Admits(p, g, world, n)
    ensures Describes(p, g, world, Refused, n)
  {
    GoingMeans(p, g, world, n);
  }

  /** Everything the breaker sees during the call. */
  function Seen<T>(p: Policy, world: seq<Turn<T>>, result: Result<T>, calls: nat): seq<Event>
    requires calls <= |world| && (result.Refused? ==> calls < |world|)
  {
    if result.Refused? then History(p, world, calls) + Opening(world[calls]) else History(p, world, calls)
  }

  // ---------------------------------------------------------------- which errors are retried, and what is recorded

  /**
    Attempt `i` raised an error that is an instance of one of the listed types, in the sense of an except clause: some
    type that it is an instance of is listed.
   */
  ghost predicate RaisesListed<T>(p: Policy, world: seq<Turn<T>>, i: nat)
    requires i < |world|
  {
    world[i].outcome.Raised? && exists t :: t in world[i].outcome.error.types && t in p.retryOn
  }

  /**
    Exactly which attempts are followed by another `allow`: those that raise a listed error while attempts are left.
    An error that is not listed ends the call at once, and so does a success.
   */
  lemma RetriedIffListed<T(!new)>(p: Policy, g: Guard, world: seq<Turn<T>>, result: Result<T>, calls: nat, i: nat)
    requires p.maxAttempts <= |world| && Describes(p, g, world, result, calls) && i < calls
    ensures (i + 1 < calls || result.Refused?) <==> RaisesListed(p, world, i) && i + 1 < p.maxAttempts
    ensures i + 1 == calls ==> match world[i].outcome
                               case Returned(v) => result == Ok(v)
                               case Raised(e) => result == if result.Refused? then Refused else Result.Failed(e)
  {
    RetryableIffListed(p, world, i);
    if i + 1 < calls {
      assert Retried(p, world, i);
    }
  }

  lemma RetryableIffListed<T(!new)>(p: Policy, world: seq<Turn<T>>, i: nat)
    requires i < |world|
    ensures RaisesListed(p, world, i) <==> Retried(p, world, i)
  {
  }

  /** Whatever other callers do before and during the attempts of a call, the breaker sees it. */
  lemma {:induction false} OthersAreSeen<T(!new)>(p: Policy, world: seq<Turn<T>>, n: nat, i: nat, e: Event)
    requires i < n <= |world| && (e in world[i].before || e in world[i].during)
    ensures e in History(p, world, n)
  {
    if i < n - 1 {
      OthersAreSeen(p, world, n - 1, i, e);
    } else {
      assert e in Opening(world[i]) || e in Closing(p, world[i]);
    }
  }

  /** Nobody else uses the breaker around the first `n` attempts. */
  ghost predicate Alone<T>(world: seq<Turn<T>>, n: nat)
    requires n <= |world|
  {
    forall i :: 0 <= i < n ==> world[i].before == [] && world[i].during == []
  }

  /** In the events `es`, attempts `0` to `n - 1` each asked at its time, and each failure was recorded at its. */
  ghost predicate AskAndFail<T>(world: seq<Turn<T>>, n: nat, es: seq<Event>)
    requires n <= |world| && 2 * n <= |es|
  {
    forall i :: 0 <= i < n ==> AskedAndFailed(world[i], es, i)
  }

  ghost predicate AskedAndFailed<T>(t: Turn<T>, es: seq<Event>, i: nat)
    requires 2 * i + 1 < |es|
  {
    es[2 * i] == Check(t.checkAt) && es[2 * i + 1] == Event.Failed(t.recordAt)
  }

  lemma {:induction false} AloneHistory<T(!new)>(p: Policy, world: seq<Turn<T>>, n: nat)
    requires n <= |world| && Alone(world, n) && forall i :: 0 <= i < n ==> RaisesListed(p, world, i)
    ensures |History(p, world, n)| == 2 * n && AskAndFail(world, n, History(p, world, n))
  {
    if 0 < n {
      AloneHistory(p, world, n - 1);
      AloneTurnSeen(p, world, n - 1, History(p, world, n - 1));
    }
  }

  lemma AloneTurnSeen<T(!new)>(p: Policy, world: seq<Turn<T>>, n: nat, es: seq<Event>)
    requires n < |world| && Alone(world, n + 1) && RaisesListed(p, world, n)
    requires |es| == 2 * n && AskAndFail(world, n, es)
    ensures var longer := es + Opening(world[n]) + Closing(p, world[n]);
            |longer| == 2 * (n + 1) && AskAndFail(world, n + 1, longer)
  {
    RetryableIffListed(p, world, n);
    var t, longer := world[n], es + Opening(world[n]) + Closing(p, world[n]);
    assert Opening(t) == [Check(t.checkAt)] && Closing(p, t) == [Event.Failed(t.recordAt)];
    forall i | 0 <= i < n + 1 ensures AskedAndFailed(world[i], longer, i) {
      assert i < n ==> AskedAndFailed(world[i], es, i);
    }
  }

  /**
    What a call that is alone shows to the breaker: for each attempt but the last, that it was asked for and failed;
    then, that the last one was asked for, and its success, or its failure if the error is listed, or nothing more.
   */
  lemma AloneCallSeen<T(!new)>(p: Policy, g: Guard, world: seq<Turn<T>>, result: Result<T>, calls: nat)
    requires p.maxAttempts <= |world| && Describes(p, g, world, result, calls) && !result.NoAttempt?
    requires Alone(world, calls) && (result.Refused? ==> world[calls].before == [])
    ensures var es, last := Seen(p, world, result, calls), if result.Refused? then calls else calls - 1;
            && 2 * last <= |es| && AskAndFail(world, last, es)
            && es[2 * last..] == [Check(world[last].checkAt)]
               + match result
                 case Ok(_) => [Succeeded(world[last].recordAt)]
                 case Failed(_) => if RaisesListed(p, world, last) then [Event.Failed(world[last].recordAt)] else []
                 case _ => []
  {
    var last := if result.Refused? then calls else calls - 1;
    forall i | 0 <= i < last ensures RaisesListed(p, world, i) {
      RetriedIffListed(p, g, world, result, calls, i);
    }
    AloneHistory(p, world, last);
    var es := History(p, world, last);
    assert Opening(world[last]) == [Check(world[last].checkAt)];
    if !result.Refused? {
      RetryableIffListed(p, world, last);
      assert Seen(p, world, result, calls) == es + (Opening(world[last]) + Closing(p, world[last]));
    }
    forall i | 0 <= i < last ensures AskedAndFailed(world[i], Seen(p, world, result, calls), i) {
      assert AskedAndFailed(world[i], es, i);
    }
  }

  // ---------------------------------------------------------------- backoff

  /** baseDelay * multiplier^k. */
  function Raw(p: Policy, k: nat): real {
    if k == 0 then p.baseDelay else p.multiplier * Raw(p, k - 1)
  }

  /** The longest delay before an attempt (counted from one). */
  function Cap(p: Policy, attempt: int): real {
    var raw := Raw(p, if attempt - 1 < 0 then 0 else attempt - 1);
    if raw < p.maxDelay then raw else p.maxDelay
  }

  /** `draw` is the random number between 0 and 1 behind the full jitter. */
  function ComputeBackoff(p: Policy, attempt: int, draw: real): real {
    if p.jitter then Cap(p, attempt) * draw else Cap(p, attempt)
  }

  /** The delays before the attempts number 2, ..., `n` + 1. */
  function Sleeps<T>(p: Policy, world: seq<Turn<T>>, n: nat): (r: seq<real>)
    requires n <= |world|
    ensures |r| == n
  {
    if n == 0 then [] else Sleeps(p, world, n - 1) + [ComputeBackoff(p, n + 1, world[n - 1].draw)]
  }

  /** One sleep before every attempt but the first, and before the attempt that was refused. */
  function SleepCount<T>(result: Result<T>, calls: nat): nat {
    if result.Refused? || calls == 0 then calls else calls - 1
  }

  // ---------------------------------------------------------------- the loop

  /** Other callers use the breaker. */
  method Others(breaker: CircuitBreaker, es: seq<Event>)
    modifies breaker
    ensures breaker.Value() == Run(breaker.config, old(breaker.Value()), es)
  {
    assert es[..0] == [];
    for i := 0 to |es|
      invariant breaker.Value() == Run(breaker.config, old(breaker.Value()), es[..i])
    {
      assert es[..i + 1][..i] == es[..i];
      match es[i]
      case Check(now) => var _ := breaker.Allow(now);
      case Succeeded(_) => breaker.RecordSuccess();
      case Failed(now) => breaker.RecordFailure(now);
    }
    assert es[..|es|] == es;
  }

  ghost function GuardOf(breaker: CircuitBreaker?): Guard
    reads breaker
  {
    if breaker == null then Unguarded else Guarded(breaker.config, breaker.Value())
  }

  /** The breaker, if there is one, started as in `g` and has seen `es`. */
  ghost predicate HasSeen(breaker: CircuitBreaker?, g: Guard, es: seq<Event>)
    reads breaker
  {
    && (breaker == null <==> g.Unguarded?)
    && (breaker != null ==> breaker.config == g.config && breaker.Value() == Run(g.config, g.status, es))
  }

  /** Up to and including the `allow` of turn `n`. */
  method Ask<T(!new)>(p: Policy, breaker: CircuitBreaker?, ghost g: Guard, world: seq<Turn<T>>, n: nat)
    returns (granted: bool)
    requires n < |world| && HasSeen(breaker, g, History(p, world, n))
    modifies if breaker == null then {} else {breaker}
    ensures HasSeen(breaker, g, History(p, world, n) + Opening(world[n]))
    ensures granted <==> Admits(p, g, world, n)
  {
    if breaker == null {
      return true;
    }
    var t := world[n];
    RunConcat(g.config, g.status, History(p, world, n), Opening(t));
    Others(breaker, t.before);
    assert Opening(t)[..|t.before|] == t.before;
    granted := breaker.Allow(t.checkAt);
  }

  /** The awaited function of turn `n`, as far as the breaker is concerned, and the recording of its outcome. */
  method Record<T(!new)>(p: Policy, breaker: CircuitBreaker?, ghost g: Guard, world: seq<Turn<T>>, n: nat)
    requires n < |world| && HasSeen(breaker, g, History(p, world, n) + Opening(world[n]))
    modifies if breaker == null then {} else {breaker}
    ensures HasSeen(breaker, g, History(p, world, n + 1))
  {
    if breaker == null {
      return;
    }
    var t := world[n];
    RunConcat(g.config, g.status, History(p, world, n) + Opening(t), Closing(p, t));
    Others(breaker, t.during);
    if t.outcome.Returned? {
      breaker.RecordSuccess();
      assert Closing(p, t)[..|t.during|] == t.during;
    } else if Retryable(p, t.outcome.error) {
      breaker.RecordFailure(t.recordAt);
      assert Closing(p, t)[..|t.during|] == t.during;
    } else {
      assert Closing(p, t) == t.during;
    }
  }

  method RetryAsync<T(!new)>(p: Policy, breaker: CircuitBreaker?, world: seq<Turn<T>>)
    returns (result: Result<T>, calls: nat, sleeps: seq<real>)
    requires p.maxAttempts <= |world|
    modifies if breaker == null then {} else {breaker}
    ensures Describes(p, old(GuardOf(breaker)), world, result, calls)
    ensures HasSeen(breaker, old(GuardOf(breaker)), Seen(p, world, result, calls))
    ensures sleeps == Sleeps(p, world, SleepCount(result, calls))
  {
    ghost var g := GuardOf(breaker);
    sleeps, calls := [], 0;
    while calls < p.maxAttempts
      invariant calls == 0 || calls < p.maxAttempts
      invariant sleeps == Sleeps(p, world, calls)
      invariant Going(p, g, world, calls)
      invariant HasSeen(breaker, g, History(p, world, calls))
    {
      var turn := world[calls];
      var granted := Ask(p, breaker, g, world, calls);
      if !granted {
        StopsRefused(p, g, world, calls);
        return Refused, calls, sleeps;
      }
      Record(p, breaker, g, world, calls);
      StopsAfterAttempt(p, g, world, calls);
      calls := calls + 1;
      match turn.outcome
      case Returned(v) =>
        return Ok(v), calls, sleeps;
      case Raised(e) =>
        if !Retryable(p, e) || calls >= p.maxAttempts {
          return Result.Failed(e), calls, sleeps;
        }
        sleeps := sleeps + [ComputeBackoff(p, calls + 1, turn.draw)];
    }
    result := NoAttempt;
  }

  // ---------------------------------------------------------------- what a call leaves on the breaker

  /**
    A breaker that has a past, after the attempts of a call: with everything it saw of other callers and of the
    outcomes appended to that past, its fields still mean its whole history.
   */
  lemma BreakerAfterCall<T(!new)>(p: Policy, c: Config, past: seq<Event>, world: seq<Turn<T>>, result: Result<T>,
                                  calls: nat)
    returns (k: nat)
    requires calls <= |world| && (result.Refused? ==> calls < |world|)
    ensures var es, b := past + Seen(p, world, result, calls),
                         Run(c, Run(c, FRESH, past), Seen(p, world, result, calls));
            && (b.state.Closed? ==> b.failures == TrailingFailures(es, |es|) < AtLeastOne(c.failureThreshold))
            && (b.state.HalfOpen? ==>
                  && HalfOpenSince(c, es, k, |es|) && NoFailure(es, k, |es|)
                  && b.successes == SuccessCount(es, k, |es|) < AtLeastOne(c.successThreshold))
            && (!b.state.HalfOpen? ==> b.successes == 0)
  {
    var es := past + Seen(p, world, result, calls);
    RunConcat(c, FRESH, past, Seen(p, world, result, calls));
    AfterIsRun(c, es, |es|);
    assert es[..|es|] == es;
    k := FieldsMeanHistory(c, es, |es|);
  }

  // ---------------------------------------------------------------- alone on a closed breaker

  lemma TurnRuns<T(!new)>(p: Policy, c: Config, b: Status, world: seq<Turn<T>>, n: nat, now: Status)
    requires n < |world| && now == Run(c, b, History(p, world, n))
    ensures var asked := Run(c, now, Opening(world[n]));
            && Run(c, b, History(p, world, n) + Opening(world[n])) == asked
            && Run(c, b, History(p, world, n + 1)) == Run(c, asked, Closing(p, world[n]))
  {
    RunConcat(c, b, History(p, world, n), Opening(world[n]));
    RunConcat(c, b, History(p, world, n) + Opening(world[n]), Closing(p, world[n]));
  }

  /** Nobody else uses the breaker during this turn, and its attempt fails. */
  ghost predicate FailsAlone<T>(p: Policy, world: seq<Turn<T>>, i: nat)
    requires i < |world|
  {
    world[i].before == [] && world[i].during == [] && Retried(p, world, i)
  }

  /** The pause before this turn is shorter than the recovery window. */
  ghost predicate ShortPause<T>(c: Config, world: seq<Turn<T>>, i: nat)
    requires 0 < i < |world|
  {
    world[i].checkAt - world[i - 1].recordAt < c.recoveryTimeout
  }

  ghost predicate AlwaysFailsAlone<T>(p: Policy, c: Config, world: seq<Turn<T>>) {
    && p.maxAttempts <= |world|
    && (forall i :: 0 <= i < p.maxAttempts ==> FailsAlone(p, world, i))
    && forall i :: 0 < i < p.maxAttempts ==> ShortPause(c, world, i)
  }

  /** What the breaker holds after `n` turns in each of which it is asked and then told of a failure. */
  function AfterFailures<T>(c: Config, b: Status, world: seq<Turn<T>>, n: nat): Status
    requires n <= |world|
  {
    if n == 0 then b
    else
      var asked := Observe(c, AfterFailures(c, b, world, n - 1), world[n - 1].checkAt);
      OnFailure(c, asked, world[n - 1].recordAt)
  }

  lemma {:induction false} AloneStatus<T(!new)>(p: Policy, c: Config, b: Status, world: seq<Turn<T>>, n: nat)
    requires AlwaysFailsAlone(p, c, world) && n <= p.maxAttempts
    ensures Run(c, b, History(p, world, n)) == AfterFailures(c, b, world, n)
  {
    if 0 < n {
      AloneStatus(p, c, b, world, n - 1);
      AloneTurn(p, c, b, world, n - 1, AfterFailures(c, b, world, n - 1));
    }
  }

  /** Until they meet the threshold the failures are just counted; the one that meets it opens the breaker. */
  lemma {:induction false} FailuresCounted<T(!new)>(c: Config, b: Status, world: seq<Turn<T>>, n: nat)
    requires b.state.Closed? && b.failures < c.failureThreshold
    requires n <= |world| && n <= c.failureThreshold - b.failures
    ensures var now := AfterFailures(c, b, world, n);
            && now.failures == b.failures + n
            && (now.failures < c.failureThreshold ==> now.state.Closed?)
            && (now.failures == c.failureThreshold ==>
                  0 < n && now.state.Open? && now.openedAt == world[n - 1].recordAt)
  {
    if 0 < n {
      FailuresCounted(c, b, world, n - 1);
    }
  }

  /** The breaker, having counted the failures, admits the next attempt until they meet the threshold. */
  lemma AloneAdmits<T(!new)>(p: Policy, c: Config, b: Status, world: seq<Turn<T>>, n: nat)
    requires AlwaysFailsAlone(p, c, world) && b.state.Closed? && b.failures < c.failureThreshold
    requires n < p.maxAttempts && n <= c.failureThreshold - b.failures
    ensures Admits(p, Guarded(c, b), world, n) <==> b.failures + n < c.failureThreshold
  {
    AloneStatus(p, c, b, world, n);
    FailuresCounted(c, b, world, n);
    AloneTurn(p, c, b, world, n, AfterFailures(c, b, world, n));
    assert 0 < n ==> ShortPause(c, world, n);
  }

  lemma AloneTurn<T(!new)>(p: Policy, c: Config, b: Status, world: seq<Turn<T>>, n: nat, now: Status)
    requires AlwaysFailsAlone(p, c, world) && n < p.maxAttempts
    requires now == Run(c, b, History(p, world, n))
    ensures var asked := Observe(c, now, world[n].checkAt);
            && Run(c, b, History(p, world, n) + Opening(world[n])) == asked
            && Run(c, b, History(p, world, n + 1)) == OnFailure(c, asked, world[n].recordAt)
  {
    TurnRuns(p, c, b, world, n, now);
    assert FailsAlone(p, world, n);
    FailingTurn(p, c, now, world[n]);
  }

  /** What a turn that fails does to the breaker when nobody else uses it. */
  lemma FailingTurn<T(!new)>(p: Policy, c: Config, now: Status, t: Turn<T>)
    requires t.before == [] && t.during == [] && t.outcome.Raised? && Retryable(p, t.outcome.error)
    ensures var asked := Observe(c, now, t.checkAt);
            Run(c, now, Opening(t)) == asked && Run(c, asked, Closing(p, t)) == OnFailure(c, asked, t.recordAt)
  {
    var open, done := Check(t.checkAt), Event.Failed(t.recordAt);
    assert Opening(t) == [open] && Closing(p, t) == [done];
    SingleEvent(c, now, open);
    SingleEvent(c, Observe(c, now, t.checkAt), done);
  }

  lemma SingleEvent(c: Config, b: Status, e: Event)
    ensures Run(c, b, [e]) == Step(c, b, e)
  {
    assert [e][..0] == [];
  }

  /**
    A call that is alone on a closed breaker with `b.failures` prior failures, and fails every time, makes exactly
    min(maxAttempts, failureThreshold - b.failures) attempts, and ends refused if and only if the breaker trips
    before the attempts are used up.
   */
  lemma AloneOnClosedBreaker<T(!new)>(p: Policy, c: Config, b: Status, world: seq<Turn<T>>,
                                      result: Result<T>, calls: nat)
    requires 0 < p.maxAttempts && AlwaysFailsAlone(p, c, world)
    requires b.state.Closed? && b.failures < c.failureThreshold
    requires Describes(p, Guarded(c, b), world, result, calls)
    ensures calls == Min(p.maxAttempts, c.failureThreshold - b.failures)
    ensures result.Refused? <==> c.failureThreshold - b.failures < p.maxAttempts
    ensures !result.Refused? ==> result.Failed? && world[p.maxAttempts - 1].outcome == Raised(result.error)
  {
    var r, n := AloneResult(p, c, b, world);
    DescribesOne(p, Guarded(c, b), world, result, calls, r, n);
  }

  lemma AloneResult<T(!new)>(p: Policy, c: Config, b: Status, world: seq<Turn<T>>) returns (result: Result<T>, n: nat)
    requires 0 < p.maxAttempts && AlwaysFailsAlone(p, c, world)
    requires b.state.Closed? && b.failures < c.failureThreshold
    ensures n == Min(p.maxAttempts, c.failureThreshold - b.failures)
    ensures Retried(p, world, n - 1) && Describes(p, Guarded(c, b), world, result, n)
    ensures result == if n < p.maxAttempts then Refused else Result.Failed(world[n - 1].outcome.error)
  {
    n := Min(p.maxAttempts, c.failureThreshold - b.failures);
    assert FailsAlone(p, world, n - 1);
    AloneGoing(p, c, b, world, n);
    if n < p.maxAttempts {
      AloneAdmits(p, c, b, world, n);
      StopsRefused(p, Guarded(c, b), world, n);
      result := Refused;
    } else {
      StopsAfterAttempt(p, Guarded(c, b), world, n - 1);
      result := Result.Failed(world[n - 1].outcome.error);
    }
  }

  lemma {:induction false} AloneGoing<T(!new)>(p: Policy, c: Config, b: Status, world: seq<Turn<T>>, n: nat)
    requires AlwaysFailsAlone(p, c, world) && b.state.Closed? && b.failures < c.failureThreshold
    requires n <= Min(p.maxAttempts, c.failureThreshold - b.failures)
    ensures Going(p, Guarded(c, b), world, n)
  {
    if 0 < n {
      AloneGoing(p, c, b, world, n - 1);
      AloneStep(p, c, b, world, n - 1);
      GoingExtend(p, Guarded(c, b), world, n - 1);
    }
  }

  lemma AloneStep<T(!new)>(p: Policy, c: Config, b: Status, world: seq<Turn<T>>, n: nat)
    requires AlwaysFailsAlone(p, c, world) && b.state.Closed? && b.failures < c.failureThreshold
    requires n < Min(p.maxAttempts, c.failureThreshold - b.failures)
    ensures Admits(p, Guarded(c, b), world, n) && Retried(p, world, n)
  {
    AloneAdmits(p, c, b, world, n);
    assert FailsAlone(p, world, n);
  }

  // ---------------------------------------------------------------- how long a call can sleep

  function Sum(s: seq<real>): real {
    if s == [] then 0.0 else Sum(s[..|s| - 1]) + s[|s| - 1]
  }

  /** min(baseDelay * multiplier^k, maxDelay) for k = 1, ..., n. */
  function Caps(p: Policy, n: nat): (r: seq<real>)
    ensures |r| == n
  {
    if n == 0 then [] else Caps(p, n - 1) + [Cap(p, n + 1)]
  }

  lemma {:induction false} CapsAt(p: Policy, n: nat, k: nat)
    requires k < n
    ensures Caps(p, n)[k] == Cap(p, k + 2)
  {
    if k < n - 1 {
      CapsAt(p, n - 1, k);
    }
  }

  ghost predicate Sensible(p: Policy) {
    0.0 <= p.baseDelay && 0.0 <= p.maxDelay && 0.0 <= p.multiplier
  }

  ghost predicate Dominated(xs: seq<real>, ys: seq<real>) {
    && |xs| <= |ys|
    && (forall k :: 0 <= k < |xs| ==> 0.0 <= xs[k] <= ys[k])
    && forall k :: 0 <= k < |ys| ==> 0.0 <= ys[k]
  }

  lemma {:induction false} SumWithin(xs: seq<real>, ys: seq<real>)
    requires Dominated(xs, ys)
    ensures 0.0 <= Sum(xs) <= Sum(ys)
    decreases |ys|
  {
    if |xs| < |ys| {
      SumWithin(xs, ys[..|ys| - 1]);
    } else if xs != [] {
      SumWithin(xs[..|xs| - 1], ys[..|ys| - 1]);
    }
  }

  lemma {:induction false} SumAtMost(xs: seq<real>, most: real)
    requires forall k :: 0 <= k < |xs| ==> xs[k] <= most
    ensures Sum(xs) <= |xs| as real * most
  {
    if xs != [] {
      SumAtMost(xs[..|xs| - 1], most);
      OneMore((|xs| - 1) as real, most);
    }
  }

  lemma Multiply(x: real, y: real, d: real)
    requires x <= y && 0.0 <= d
    ensures x * d <= y * d
  {
    assert (y - x) * d >= 0.0;
  }

  lemma {:induction false} RawNonNegative(p: Policy, k: nat)
    requires 0.0 <= p.baseDelay && 0.0 <= p.multiplier
    ensures 0.0 <= Raw(p, k)
  {
    if k > 0 {
      RawNonNegative(p, k - 1);
    }
  }

  lemma CapBounds(p: Policy, k: nat)
    requires Sensible(p)
    ensures 0.0 <= Cap(p, k + 1) <= p.maxDelay && Cap(p, k + 1) <= Raw(p, k)
  {
    RawNonNegative(p, k);
  }

  lemma DrawBounds(p: Policy, k: nat, draw: real)
    requires Sensible(p) && 0.0 <= draw <= 1.0
    ensures 0.0 <= ComputeBackoff(p, k + 1, draw) <= Cap(p, k + 1)
  {
    CapBounds(p, k);
    Multiply(draw, 1.0, Cap(p, k + 1));
  }

  lemma {:induction false} SleepsAt<T(!new)>(p: Policy, world: seq<Turn<T>>, n: nat, k: nat)
    requires k < n <= |world|
    ensures Sleeps(p, world, n)[k] == ComputeBackoff(p, k + 2, world[k].draw)
  {
    if k < n - 1 {
      SleepsAt(p, world, n - 1, k);
    }
  }

  ghost predicate IsMin(m: real, x: real, y: real) {
    m <= x && m <= y && (m == x || m == y)
  }

  lemma CapIs(p: Policy, k: nat)
    ensures IsMin(Cap(p, k + 2), p.baseDelay * Pow(p.multiplier, k + 1), p.maxDelay)
  {
    RawIsPower(p, k + 1);
    assert IsMin(Cap(p, k + 2), Raw(p, k + 1), p.maxDelay);
  }

  /**
    Exactly how long each sleep is: before attempt number k + 2, min(baseDelay * multiplier^(k+1), maxDelay), times
    the random number if there is jitter.
   */
  lemma SleepIs<T(!new)>(p: Policy, world: seq<Turn<T>>, n: nat, k: nat) returns (most: real)
    requires k < n <= |world|
    ensures IsMin(most, p.baseDelay * Pow(p.multiplier, k + 1), p.maxDelay)
    ensures Sleeps(p, world, n)[k] == if p.jitter then most * world[k].draw else most
  {
    SleepsAt(p, world, n, k);
    CapIs(p, k);
    most := Cap(p, k + 2);
  }

  /** A call sleeps after an attempt exactly when that raised a listed error and attempts are left. */
  lemma OneSleepPerRetry<T(!new)>(p: Policy, g: Guard, world: seq<Turn<T>>, result: Result<T>, calls: nat, i: nat)
    requires p.maxAttempts <= |world| && Describes(p, g, world, result, calls) && i < calls
    ensures i < SleepCount(result, calls) <==> RaisesListed(p, world, i) && i + 1 < p.maxAttempts
    ensures SleepCount(result, calls) <= calls
  {
    RetriedIffListed(p, g, world, result, calls, i);
  }

  /** The sleeps of one call sum to at most the sum of the caps of all its retries, whatever the random draws. */
  lemma SleepsWithinCaps<T(!new)>(p: Policy, world: seq<Turn<T>>, n: nat, retries: nat)
    requires Sensible(p) && n <= |world| && n <= retries
    requires forall i :: 0 <= i < n ==> 0.0 <= world[i].draw <= 1.0
    ensures 0.0 <= Sum(Sleeps(p, world, n)) <= Sum(Caps(p, retries))
  {
    forall k | 0 <= k < n ensures 0.0 <= Sleeps(p, world, n)[k] <= Caps(p, retries)[k] {
      SleepsAt(p, world, n, k);
      CapsAt(p, retries, k);
      DrawBounds(p, k + 1, world[k].draw);
    }
    forall k | 0 <= k < retries ensures 0.0 <= Caps(p, retries)[k] {
      CapsAt(p, retries, k);
      CapBounds(p, k + 1);
    }
    SumWithin(Sleeps(p, world, n), Caps(p, retries));
  }

  /** ... hence to at most `maxDelay` times the number of retries. */
  lemma CapsAtMostLinear(p: Policy, n: nat)
    requires Sensible(p)
    ensures Sum(Caps(p, n)) <= n as real * p.maxDelay
  {
    forall k | 0 <= k < n ensures Caps(p, n)[k] <= p.maxDelay {
      CapsAt(p, n, k);
      CapBounds(p, k + 1);
    }
    SumAtMost(Caps(p, n), p.maxDelay);
  }

  function Pow(m: real, k: nat): real {
    if k == 0 then 1.0 else m * Pow(m, k - 1)
  }

  lemma {:induction false} RawIsPower(p: Policy, k: nat)
    ensures Raw(p, k) == p.baseDelay * Pow(p.multiplier, k)
  {
    if k > 0 {
      RawIsPower(p, k - 1);
      Rotate(p.multiplier, p.baseDelay, Pow(p.multiplier, k - 1));
    }
  }

  lemma Rotate(m: real, b: real, w: real)
    ensures m * (b * w) == b * (m * w)
  {
  }

  /** The sum over k = 1, ..., n of baseDelay * multiplier^k. */
  function RawSum(p: Policy, n: nat): real {
    if n == 0 then 0.0 else RawSum(p, n - 1) + Raw(p, n)
  }

  /** ... and to at most the sum of the geometric series, */
  lemma {:induction false} CapsAtMostGeometric(p: Policy, n: nat)
    requires Sensible(p)
    ensures Sum(Caps(p, n)) <= RawSum(p, n)
  {
    if 0 < n {
      CapsAtMostGeometric(p, n - 1);
      CapBounds(p, n);
      assert Caps(p, n)[..n - 1] == Caps(p, n - 1);
    }
  }

  /** b * m + b * m^2 + ... in closed form, the last power being `w`. */
  function ClosedForm(b: real, m: real, w: real): real
    requires 1.0 < m
  {
    b * m * (w - 1.0) / (m - 1.0)
  }

  /** ... which is baseDelay * m * (m^n - 1) / (m - 1), for a multiplier m above one. */
  lemma {:induction false} GeometricSeries(p: Policy, n: nat)
    requires 1.0 < p.multiplier
    ensures RawSum(p, n) == ClosedForm(p.baseDelay, p.multiplier, Pow(p.multiplier, n))
  {
    RawSumTelescopes(p, n);
    RawIsPower(p, n);
    Solve(RawSum(p, n), p.baseDelay, p.multiplier, Pow(p.multiplier, n), Raw(p, n), Raw(p, 0));
  }

  lemma {:induction false} RawSumTelescopes(p: Policy, n: nat)
    ensures RawSum(p, n) * (p.multiplier - 1.0) == p.multiplier * Raw(p, n) - p.multiplier * Raw(p, 0)
  {
    if 0 < n {
      RawSumTelescopes(p, n - 1);
      TelescopeStep(p.multiplier, RawSum(p, n - 1), Raw(p, n), p.multiplier * Raw(p, 0));
    }
  }

  lemma TelescopeStep(m: real, sum: real, w: real, w0: real)
    requires sum * (m - 1.0) == w - w0
    ensures (sum + w) * (m - 1.0) == m * w - w0
  {
  }

  lemma Solve(x: real, b: real, m: real, w: real, raw: real, raw0: real)
    requires 1.0 < m && x * (m - 1.0) == m * raw - m * raw0 && raw == b * w && raw0 == b
    ensures x == ClosedForm(b, m, w)
  {
    Rotate(m, b, w);
    assert m * raw - m * raw0 == b * m * (w - 1.0);
    Divide(x, m - 1.0, b * m * (w - 1.0));
  }

  lemma Divide(x: real, d: real, y: real)
    requires 0.0 < d && x * d == y
    ensures x == y / d
  {
    assert (x - y / d) * d == 0.0;
  }

  /** The bounds on `n` sleeps of a call with at most that many retries. */
  lemma SleepBounds<T(!new)>(p: Policy, world: seq<Turn<T>>, n: nat, retries: nat)
    requires Sensible(p) && n <= |world| && n <= retries
    requires forall i :: 0 <= i < n ==> 0.0 <= world[i].draw <= 1.0
    ensures 0.0 <= Sum(Sleeps(p, world, n)) <= Sum(Caps(p, retries))
    ensures Sum(Sleeps(p, world, n)) <= retries as real * p.maxDelay
    ensures 1.0 < p.multiplier ==>
              Sum(Sleeps(p, world, n)) <= ClosedForm(p.baseDelay, p.multiplier, Pow(p.multiplier, retries))
  {
    SleepsWithinCaps(p, world, n, retries);
    CapsAtMostLinear(p, retries);
    CapsAtMostGeometric(p, retries);
    if 1.0 < p.multiplier {
      GeometricSeries(p, retries);
    }
  }

  /**
    How long one call of the loop sleeps in all, n being `maxAttempts` and m the multiplier: at most the sum of the
    n - 1 caps, hence at most (n - 1) * maxDelay, and at most baseDelay * m * (m^(n-1) - 1) / (m - 1).
   */
  lemma SleepsOfOneCall<T(!new)>(p: Policy, g: Guard, world: seq<Turn<T>>, result: Result<T>, calls: nat,
                                 retries: nat)
    requires Sensible(p) && 0 < p.maxAttempts <= |world| && retries == p.maxAttempts - 1
    requires forall i :: 0 <= i < |world| ==> 0.0 <= world[i].draw <= 1.0
    requires Describes(p, g, world, result, calls)
    ensures var slept := Sum(Sleeps(p, world, SleepCount(result, calls)));
            && 0.0 <= slept <= Sum(Caps(p, retries))
            && slept <= retries as real * p.maxDelay
            && (1.0 < p.multiplier ==> slept <= ClosedForm(p.baseDelay, p.multiplier, Pow(p.multiplier, retries)))
  {
    SleepBounds(p, world, SleepCount(result, calls), retries);
  }

  /** The cap never decreases from one attempt to the next. */
  lemma CapNeverDecreases(p: Policy, attempt: int)
    requires 0.0 <= p.baseDelay && 1.0 <= p.multiplier
    ensures Cap(p, attempt) <= Cap(p, attempt + 1)
  {
    if 0 < attempt {
      RawNonNegative(p, attempt - 1);
      Multiply(1.0, p.multiplier, Raw(p, attempt - 1));
    }
  }
}

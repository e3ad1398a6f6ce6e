/**
  The idempotent consumer: dedupe on the event id, dead-letter what fails (messaging.py).

  `Handle` is one undisturbed call.  `Calls` below is the same code cut at its only await, the handler, so that any
  number of calls overlap.
 */
module Consumer {
  import opened Sequences
  import opened Outbox

  /** The processed ids, the dead-letter queue, and the envelopes of the handler runs that succeeded, in order. */
  datatype Ledger = Ledger(seen: set<string>, dead: seq<Envelope>, effects: seq<Envelope>)

  const EMPTY := Ledger({}, [], [])

  datatype Verdict = Handled | Skipped | DeadLettered

  class IdempotentConsumer {
    var seen: set<string>
    var dead: seq<Envelope>
    ghost var effects: seq<Envelope>

    constructor ()
      ensures View() == EMPTY
    {
      seen, dead, effects := {}, [], [];
    }

    ghost function View(): Ledger reads this { Ledger(seen, dead, effects) }

    /** `fails` is whether the handler would raise on this delivery. */
    method Handle(envelope: Envelope, fails: bool) returns (ran: bool)
      modifies this
      ensures View() == Deliver(old(View()), envelope, fails)
      ensures ran <==> Classify(old(View()), envelope, fails).Handled?
    {
      if envelope.eventId != "" && envelope.eventId in seen {
        return false;
      }
      if fails {
        dead := dead + [envelope];
        return false;
      }
      effects := effects + [envelope];
      if envelope.eventId != "" {
        seen := seen + {envelope.eventId};
      }
      return true;
    }
  }

  ghost function Classify(l: Ledger, envelope: Envelope, fails: bool): Verdict {
    if envelope.eventId != "" && envelope.eventId in l.seen then Skipped
    else if fails then DeadLettered
    else Handled
  }

  /** The handler succeeded: its effect counts, and a non-empty id is marked as processed. */
  ghost function Commit(l: Ledger, envelope: Envelope): Ledger {
    l.(effects := l.effects + [envelope],
       seen := if envelope.eventId != "" then l.seen + {envelope.eventId} else l.seen)
  }

  /** The handler raised: the envelope is parked. */
  ghost function Park(l: Ledger, envelope: Envelope): Ledger {
    l.(dead := l.dead + [envelope])
  }

  ghost function Deliver(l: Ledger, envelope: Envelope, fails: bool): Ledger {
    match Classify(l, envelope, fails)
    case Skipped => l
    case DeadLettered => Park(l, envelope)
    case Handled => Commit(l, envelope)
  }

  /** Calls one after the other, over the deliveries `es`; `fails[k]` is whether the handler raises on the k-th. */
  ghost function DeliverAll(es: seq<Envelope>, fails: seq<bool>): Ledger
    requires |es| == |fails|
  {
    if es == [] then EMPTY
    else var n := |es| - 1; Deliver(DeliverAll(es[..n], fails[..n]), es[n], fails[n])
  }

  /** How often the handler succeeded on an event id. */
  function Successes(effects: seq<Envelope>, id: string): nat {
    if effects == [] then 0
    else Successes(effects[..|effects| - 1], id) + if effects[|effects| - 1].eventId == id then 1 else 0
  }

  /**
    Calls that do not overlap: the processed ids are exactly the non-empty ids that succeeded, the handler succeeds
    at most once per non-empty id, and every delivered envelope either took effect, or is in the dead-letter queue,
    or carries the id of one that took effect.
   */
  lemma {:induction false} SequentialLedger(es: seq<Envelope>, fails: seq<bool>)
    requires |es| == |fails|
    ensures var l := DeliverAll(es, fails);
            && (forall id :: id in l.seen <==> id != "" && 0 < Successes(l.effects, id))
            && (forall id :: id != "" ==> Successes(l.effects, id) <= 1)
            && (forall e :: e in es ==> e in l.effects || e in l.dead || e.eventId in l.seen)
  {
    if es != [] {
      var n := |es| - 1;
      SequentialLedger(es[..n], fails[..n]);
      var l := DeliverAll(es[..n], fails[..n]);
      var l' := DeliverAll(es, fails);
      assert es == es[..n] + [es[n]];
      if l'.effects != l.effects {
        assert l'.effects[..|l.effects|] == l.effects;
      }
    }
  }

  lemma {:induction false} EffectCounts(effects: seq<Envelope>, e: Envelope)
    requires e in effects
    ensures 0 < Successes(effects, e.eventId)
  {
    var n := |effects| - 1;
    if effects[n] != e {
      assert effects == effects[..n] + [effects[n]];
      EffectCounts(effects[..n], e);
    }
  }

  /** With a handler that never raises and no empty event id, the effects are the first deliveries of each event. */
  lemma {:induction false} EffectsAreFirstDeliveries(es: seq<Envelope>, fails: seq<bool>)
    requires |es| == |fails| && forall k :: 0 <= k < |fails| ==> !fails[k]
    requires forall e :: e in es ==> e.eventId != ""
    requires forall e, f :: e in es && f in es && e.eventId == f.eventId ==> e == f
    ensures DeliverAll(es, fails).effects == FirstOccurrences(es)
    ensures forall e :: e in es ==> e.eventId in DeliverAll(es, fails).seen
    ensures forall id :: id in DeliverAll(es, fails).seen ==> exists e :: e in es && e.eventId == id
  {
    if es != [] {
      var n := |es| - 1;
      assert es == es[..n] + [es[n]];
      EffectsAreFirstDeliveries(es[..n], fails[..n]);
      var l := DeliverAll(es[..n], fails[..n]);
      assert es[n].eventId in l.seen <==> es[n] in es[..n];
    }
  }

  // ---------------------------------------------------------------- overlapping calls

  /**
    A call whose handler is running, or that has completed.  `rivals` are the calls on the same event id whose
    handlers were running when this one began.
   */
  datatype Call =
    | Running(envelope: Envelope, rivals: set<nat>)
    | Done(envelope: Envelope, rivals: set<nat>, verdict: Verdict)
  {
    predicate Is(v: Verdict) { Done? && verdict == v }
  }

  /** `calls` lists the calls in the order in which they began. */
  datatype System = System(ledger: Ledger, calls: seq<Call>)

  const INIT := System(EMPTY, [])

  datatype Step =
    | Begin(envelope: Envelope)  // the id check, and the call of the handler unless it says to skip
    | Succeed(call: nat)         // the handler of that call returns
    | Raise(call: nat)           // ... or raises

  ghost predicate Enabled(s: System, step: Step) {
    match step
    case Begin(_) => true
    case Succeed(c) => c < |s.calls| && s.calls[c].Running?
    case Raise(c) => c < |s.calls| && s.calls[c].Running?
  }

  ghost function Rivals(calls: seq<Call>, id: string): set<nat> {
    set c: nat | c < |calls| && calls[c].Running? && calls[c].envelope.eventId == id
  }

  ghost function Apply(s: System, step: Step): System
    requires Enabled(s, step)
  {
    match step
    case Begin(e) =>
      var rivals := Rivals(s.calls, e.eventId);
      if e.eventId != "" && e.eventId in s.ledger.seen then s.(calls := s.calls + [Done(e, rivals, Skipped)])
      else s.(calls := s.calls + [Running(e, rivals)])
    case Succeed(c) =>
      var call := s.calls[c];
      System(Commit(s.ledger, call.envelope), s.calls[c := Done(call.envelope, call.rivals, Handled)])
    case Raise(c) =>
      var call := s.calls[c];
      System(Park(s.ledger, call.envelope), s.calls[c := Done(call.envelope, call.rivals, DeadLettered)])
  }

  ghost predicate IsPath(states: seq<System>, steps: seq<Step>) {
    && |states| == |steps| + 1
    && forall k :: 0 <= k < |steps| ==> Enabled(states[k], steps[k]) && states[k + 1] == Apply(states[k], steps[k])
  }

  ghost predicate IsRun(states: seq<System>, steps: seq<Step>) {
    IsPath(states, steps) && states[0] == INIT
  }

  // ---------------------------------------------------------------- one call after the other

  /** The steps of a call during which nothing else happens. */
  ghost function CallSteps(s: System, e: Envelope, fails: bool): seq<Step> {
    if Classify(s.ledger, e, fails).Skipped? then [Begin(e)]
    else [Begin(e), if fails then Raise(|s.calls|) else Succeed(|s.calls|)]
  }

  /** Such a call does to the ledger what `Handle` does, and leaves no handler running. */
  lemma UndisturbedCall(s: System, e: Envelope, fails: bool) returns (states: seq<System>)
    ensures IsPath(states, CallSteps(s, e, fails)) && states[0] == s
    ensures var t := states[|CallSteps(s, e, fails)|];
            && t.ledger == Deliver(s.ledger, e, fails)
            && t.calls == s.calls + [Done(e, Rivals(s.calls, e.eventId), Classify(s.ledger, e, fails))]
  {
    var begun := Apply(s, Begin(e));
    if Classify(s.ledger, e, fails).Skipped? {
      states := [s, begun];
    } else {
      states := [s, begun, Apply(begun, if fails then Raise(|s.calls|) else Succeed(|s.calls|))];
    }
  }

  /** So calls one after the other are a run, in which no call has a rival. */
  lemma {:induction false} SequentialIsRun(es: seq<Envelope>, fails: seq<bool>)
    returns (states: seq<System>, steps: seq<Step>)
    requires |es| == |fails|
    ensures IsRun(states, steps) && states[|steps|].ledger == DeliverAll(es, fails)
    ensures |states[|steps|].calls| == |es|
    ensures forall c :: 0 <= c < |es| ==> states[|steps|].calls[c].Done? && states[|steps|].calls[c].rivals == {}
  {
    if es == [] {
      states, steps := [INIT], [];
    } else {
      var n := |es| - 1;
      states, steps := SequentialIsRun(es[..n], fails[..n]);
      var s := states[|steps|];
      var more := UndisturbedCall(s, es[n], fails[n]);
      assert Rivals(s.calls, es[n].eventId) == {};
      states, steps := Join(states, steps, more, CallSteps(s, es[n], fails[n]));
    }
  }

  lemma Join(states: seq<System>, steps: seq<Step>, states': seq<System>, steps': seq<Step>)
    returns (all: seq<System>, taken: seq<Step>)
    requires IsPath(states, steps) && IsPath(states', steps') && states[|steps|] == states'[0]
    ensures IsPath(all, taken) && all[0] == states[0] && all[|taken|] == states'[|steps'|]
  {
    all, taken := states + states'[1..], steps + steps';
    forall k | 0 <= k < |taken| ensures Enabled(all[k], taken[k]) && all[k + 1] == Apply(all[k], taken[k]) {
      if k >= |steps| {
        assert all[k] == states'[k - |steps|] && all[k + 1] == states'[k - |steps| + 1];
      }
    }
  }

  // ---------------------------------------------------------------- what every interleaving keeps

  /** How many calls ended with the given verdict, and how many of those on a given id succeeded. */
  function Tally(calls: seq<Call>, v: Verdict): nat {
    if calls == [] then 0
    else Tally(calls[..|calls| - 1], v) + if calls[|calls| - 1].Is(v) then 1 else 0
  }

  function HandledOn(calls: seq<Call>, id: string): nat {
    if calls == [] then 0
    else
      var last := calls[|calls| - 1];
      HandledOn(calls[..|calls| - 1], id) + if last.Is(Handled) && last.envelope.eventId == id then 1 else 0
  }

  function InFlight(calls: seq<Call>): nat {
    if calls == [] then 0
    else InFlight(calls[..|calls| - 1]) + if calls[|calls| - 1].Running? then 1 else 0
  }

  lemma {:induction false} CountsAfterEnd(calls: seq<Call>, c: nat, v: Verdict, id: string)
    requires c < |calls| && calls[c].Running?
    ensures var ended := Done(calls[c].envelope, calls[c].rivals, v);
            var after := calls[c := ended];
            && (forall w :: Tally(after, w) == Tally(calls, w) + if w == v then 1 else 0)
            && InFlight(after) == InFlight(calls) - 1
            && HandledOn(after, id)
               == HandledOn(calls, id) + if v == Handled && calls[c].envelope.eventId == id then 1 else 0
  {
    var n := |calls| - 1;
    var ended := Done(calls[c].envelope, calls[c].rivals, v);
    if c < n {
      CountsAfterEnd(calls[..n], c, v, id);
      assert calls[c := ended][..n] == calls[..n][c := ended];
    } else {
      assert calls[c := ended][..n] == calls[..n];
    }
  }

  lemma {:induction false} TallyCoversAll(calls: seq<Call>)
    ensures |calls| == InFlight(calls) + Tally(calls, Handled) + Tally(calls, Skipped) + Tally(calls, DeadLettered)
  {
    if calls != [] {
      TallyCoversAll(calls[..|calls| - 1]);
    }
  }

  /** The ledger agrees with what the calls did. */
  ghost predicate LedgerInv(s: System) {
    && |s.ledger.effects| == Tally(s.calls, Handled)
    && |s.ledger.dead| == Tally(s.calls, DeadLettered)
    && (forall id :: Successes(s.ledger.effects, id) == HandledOn(s.calls, id))
    && (forall id :: id in s.ledger.seen <==> id != "" && 0 < Successes(s.ledger.effects, id))
  }

  /** A call that was not skipped had as a rival every earlier call on its id that has succeeded or still may. */
  ghost predicate RivalInv(s: System) {
    && (forall c :: 0 <= c < |s.calls| && s.calls[c].Is(Handled) && s.calls[c].envelope.eventId != "" ==>
          s.calls[c].envelope.eventId in s.ledger.seen)
    && (forall c, d :: 0 <= c < d < |s.calls| && Contend(s.calls[c], s.calls[d]) ==> c in s.calls[d].rivals)
  }

  ghost predicate Contend(first: Call, second: Call) {
    && first.envelope.eventId == second.envelope.eventId != ""
    && (first.Running? || first.Is(Handled)) && !second.Is(Skipped)
  }

  lemma BeginKeepsInv(s: System, e: Envelope)
    requires LedgerInv(s) && RivalInv(s)
    ensures LedgerInv(Apply(s, Begin(e))) && RivalInv(Apply(s, Begin(e)))
  {
    var t := Apply(s, Begin(e));
    assert t.calls[..|s.calls|] == s.calls;
  }

  lemma EndKeepsLedgerInv(s: System, c: nat, ok: bool)
    requires LedgerInv(s) && Enabled(s, Succeed(c))
    ensures LedgerInv(Apply(s, if ok then Succeed(c) else Raise(c)))
  {
    var e := s.calls[c].envelope;
    var t := Apply(s, if ok then Succeed(c) else Raise(c));
    forall id ensures Successes(t.ledger.effects, id) == HandledOn(t.calls, id)
    {
      CountsAfterEnd(s.calls, c, if ok then Handled else DeadLettered, id);
      assert (s.ledger.effects + [e])[..|s.ledger.effects|] == s.ledger.effects;
    }
    CountsAfterEnd(s.calls, c, if ok then Handled else DeadLettered, "");
    assert forall id :: Successes(s.ledger.effects + [e], id)
                     == Successes(s.ledger.effects, id) + if e.eventId == id then 1 else 0 by {
      assert (s.ledger.effects + [e])[..|s.ledger.effects|] == s.ledger.effects;
    }
  }

  lemma EndKeepsRivalInv(s: System, c: nat, ok: bool)
    requires RivalInv(s) && Enabled(s, Succeed(c))
    ensures RivalInv(Apply(s, if ok then Succeed(c) else Raise(c)))
  {
    var t := Apply(s, if ok then Succeed(c) else Raise(c));
    forall a, b | 0 <= a < b < |t.calls| && Contend(t.calls[a], t.calls[b]) ensures a in t.calls[b].rivals {
      assert Contend(s.calls[a], s.calls[b]);
    }
  }

  lemma {:induction false} PathKeepsInv(states: seq<System>, steps: seq<Step>, k: nat)
    requires IsPath(states, steps) && LedgerInv(states[0]) && RivalInv(states[0]) && k < |states|
    ensures LedgerInv(states[k]) && RivalInv(states[k])
  {
    if k > 0 {
      PathKeepsInv(states, steps, k - 1);
      match steps[k - 1]
      case Begin(e) => BeginKeepsInv(states[k - 1], e);
      case Succeed(c) => EndKeepsLedgerInv(states[k - 1], c, true); EndKeepsRivalInv(states[k - 1], c, true);
      case Raise(c) => EndKeepsLedgerInv(states[k - 1], c, false); EndKeepsRivalInv(states[k - 1], c, false);
    }
  }

  /**
    Conservation, over every interleaving: each call is still running, or it succeeded, was skipped, or is in the
    dead-letter queue; and the processed ids are exactly the non-empty ids that succeeded.
   */
  lemma Conservation(states: seq<System>, steps: seq<Step>, k: nat)
    requires IsRun(states, steps) && k < |states|
    ensures var s := states[k];
            && |s.calls| == InFlight(s.calls) + |s.ledger.effects| + Tally(s.calls, Skipped) + |s.ledger.dead|
            && (forall id :: id in s.ledger.seen <==> id != "" && 0 < Successes(s.ledger.effects, id))
  {
    PathKeepsInv(states, steps, k);
    TallyCoversAll(states[k].calls);
  }

  /**
    Over every interleaving, two calls on one non-empty id both succeed only if they overlapped: the later one began
    while the handler of the earlier one was running.
   */
  lemma TwiceOnlyIfOverlapping(states: seq<System>, steps: seq<Step>, k: nat, c: nat, d: nat)
    requires IsRun(states, steps) && k < |states| && c < d < |states[k].calls|
    requires states[k].calls[c].Is(Handled) && states[k].calls[d].Is(Handled)
    requires states[k].calls[c].envelope.eventId == states[k].calls[d].envelope.eventId != ""
    ensures c in states[k].calls[d].rivals
  {
    PathKeepsInv(states, steps, k);
    assert Contend(states[k].calls[c], states[k].calls[d]);
  }

  /** So the handler succeeds at most once on an id none of whose calls began during another one. */
  lemma AtMostOnceWithoutOverlap(states: seq<System>, steps: seq<Step>, k: nat, id: string)
    requires IsRun(states, steps) && k < |states| && id != ""
    requires forall d :: 0 <= d < |states[k].calls| && states[k].calls[d].envelope.eventId == id ==>
               states[k].calls[d].rivals == {}
    ensures Successes(states[k].ledger.effects, id) <= 1
  {
    PathKeepsInv(states, steps, k);
    var calls := states[k].calls;
    forall c, d | 0 <= c < d < |calls| && calls[c].envelope.eventId == calls[d].envelope.eventId == id
      ensures !(calls[c].Is(Handled) && calls[d].Is(Handled))
    {
      assert Contend(calls[c], calls[d]) ==> c in calls[d].rivals;
    }
    AtMostOneHandled(calls, id);
  }

  lemma {:induction false} AtMostOneHandled(calls: seq<Call>, id: string)
    requires forall c, d :: 0 <= c < d < |calls| && calls[c].envelope.eventId == calls[d].envelope.eventId == id ==>
               !(calls[c].Is(Handled) && calls[d].Is(Handled))
    ensures HandledOn(calls, id) <= 1
    ensures HandledOn(calls, id) == 0 <==>
            forall c :: 0 <= c < |calls| && calls[c].envelope.eventId == id ==> !calls[c].Is(Handled)
  {
    if calls != [] {
      var n := |calls| - 1;
      AtMostOneHandled(calls[..n], id);
    }
  }

  // ---------------------------------------------------------------- the ledger as the history of a run

  /** The envelopes whose handlers raised in the first `k` steps, in order, and those whose handlers returned. */
  ghost function RaisedBy(states: seq<System>, steps: seq<Step>, k: nat): seq<Envelope>
    requires IsPath(states, steps) && k <= |steps|
  {
    if k == 0 then []
    else
      assert Enabled(states[k - 1], steps[k - 1]);
      match steps[k - 1]
      case Raise(c) => RaisedBy(states, steps, k - 1) + [states[k - 1].calls[c].envelope]
      case _ => RaisedBy(states, steps, k - 1)
  }

  ghost function ReturnedBy(states: seq<System>, steps: seq<Step>, k: nat): seq<Envelope>
    requires IsPath(states, steps) && k <= |steps|
  {
    if k == 0 then []
    else
      assert Enabled(states[k - 1], steps[k - 1]);
      match steps[k - 1]
      case Succeed(c) => ReturnedBy(states, steps, k - 1) + [states[k - 1].calls[c].envelope]
      case _ => ReturnedBy(states, steps, k - 1)
  }

  /**
    In every interleaving the dead-letter queue holds the envelope of every handler run that raised, in the order in
    which they raised, whatever else happened to their events; and the effects are those of the runs that returned.
   */
  lemma {:induction false} LedgerIsHistory(states: seq<System>, steps: seq<Step>, k: nat)
    requires IsRun(states, steps) && k <= |steps|
    ensures states[k].ledger.dead == RaisedBy(states, steps, k)
    ensures states[k].ledger.effects == ReturnedBy(states, steps, k)
  {
    if k > 0 {
      LedgerIsHistory(states, steps, k - 1);
    }
  }

  /** Some handler run on the event has returned within the first `k` steps. */
  ghost predicate HasReturned(states: seq<System>, steps: seq<Step>, k: nat, id: string)
    requires IsPath(states, steps) && k <= |steps|
  {
    exists e :: e in ReturnedBy(states, steps, k) && e.eventId == id
  }

  /**
    In every interleaving a call is skipped exactly when its event has an id and a handler run on it has returned
    before; every other call runs the handler, also one on an event that is parked or whose handler is running.
   */
  lemma SkippedIffReturned(states: seq<System>, steps: seq<Step>, k: nat, e: Envelope)
    requires IsRun(states, steps) && k < |steps| && steps[k] == Begin(e)
    ensures var calls, id := states[k].calls, e.eventId;
            var begun := states[k + 1].calls;
            && |begun| == |calls| + 1 && begun[..|calls|] == calls && begun[|calls|].envelope == e
            && (id != "" && HasReturned(states, steps, k, id) ==> begun[|calls|].Is(Skipped))
            && (!(id != "" && HasReturned(states, steps, k, id)) ==> begun[|calls|].Running?)
  {
    PathKeepsInv(states, steps, k);
    LedgerIsHistory(states, steps, k);
    assert Enabled(states[k], steps[k]) && states[k + 1] == Apply(states[k], steps[k]);
    OccursIff(states[k].ledger.effects, e.eventId);
  }

  lemma {:induction false} OccursIff(effects: seq<Envelope>, id: string)
    ensures 0 < Successes(effects, id) <==> exists e :: e in effects && e.eventId == id
  {
    if effects != [] {
      var n := |effects| - 1;
      OccursIff(effects[..n], id);
      assert effects == effects[..n] + [effects[n]];
    }
  }

  // ---------------------------------------------------------------- when an event runs twice

  /**
    Never again: once an event has succeeded, no call on it that begins later runs the handler, to whatever end; in
    every interleaving all of them are skipped.
   */
  lemma {:induction false} NeverRunsAgain(states: seq<System>, steps: seq<Step>, j: nat, k: nat, id: string)
    requires IsRun(states, steps) && j <= k < |states|
    requires id != "" && 0 < Successes(states[j].ledger.effects, id)
    ensures |states[j].calls| <= |states[k].calls| && id in states[k].ledger.seen
    ensures forall c :: |states[j].calls| <= c < |states[k].calls| && states[k].calls[c].envelope.eventId == id ==>
              states[k].calls[c].Is(Skipped)
    decreases k
  {
    if j < k {
      NeverRunsAgain(states, steps, j, k - 1, id);
    } else {
      PathKeepsInv(states, steps, k);
    }
  }

  /** Two calls whose handlers run at once on one event both take effect if both handlers return. */
  lemma BothSucceed(s: System, c: nat, d: nat)
    requires c < |s.calls| && d < |s.calls| && c != d && s.calls[c].Running? && s.calls[d].Running?
    requires s.calls[c].envelope.eventId == s.calls[d].envelope.eventId
    ensures Enabled(s, Succeed(c)) && Enabled(Apply(s, Succeed(c)), Succeed(d))
    ensures var t := Apply(Apply(s, Succeed(c)), Succeed(d));
            && t.calls[c].Is(Handled) && t.calls[d].Is(Handled)
            && Successes(t.ledger.effects, s.calls[c].envelope.eventId)
               == Successes(s.ledger.effects, s.calls[c].envelope.eventId) + 2
  {
    var was, e, f := s.ledger.effects, s.calls[c].envelope, s.calls[d].envelope;
    assert (was + [e])[..|was|] == was;
    assert (was + [e] + [f])[..|was| + 1] == was + [e];
  }

  /** A continuation from `s` in which a call on `e` begins at once, and it and call `c` both end in success. */
  ghost predicate RunsTwice(s: System, c: nat, e: Envelope, states: seq<System>, steps: seq<Step>) {
    && IsPath(states, steps) && states[0] == s && steps != [] && steps[0] == Begin(e)
    && var end := states[|steps|].calls;
       c < |s.calls| < |end| && end[c].Is(Handled) && end[|s.calls|].Is(Handled)
  }

  /** What lets a second call on the event of call `c`, beginning now, succeed besides it. */
  ghost predicate MayRunTwice(s: System, c: nat, id: string)
    requires c < |s.calls|
  {
    if id == "" then s.calls[c].Running? || s.calls[c].Is(Handled)
    else s.calls[c].Running? && id !in s.ledger.seen
  }

  /**
    Exactly when an event can run to success twice, in every reachable state: a call that begins now on the event of
    call `c` may succeed besides call `c`, if and only if the handler of call `c` is still running and no call on the
    event has succeeded yet.  Without an event id nothing is remembered, so there it may unless call `c` has failed.
   */
  lemma RunsTwiceIff(past: seq<System>, made: seq<Step>, s: System, c: nat, e: Envelope)
    requires IsRun(past, made) && s == past[|made|]
    requires c < |s.calls| && s.calls[c].envelope.eventId == e.eventId
    ensures (exists states, steps :: RunsTwice(s, c, e, states, steps)) <==> MayRunTwice(s, c, e.eventId)
  {
    PathKeepsInv(past, made, |made|);
    if MayRunTwice(s, c, e.eventId) {
      var states, steps := RunTwice(s, c, e);
    }
    forall states, steps | RunsTwice(s, c, e, states, steps) ensures MayRunTwice(s, c, e.eventId) {
      DoneStays(states, steps, 0, |steps|, c);
      DoneStays(states, steps, 1, |steps|, |s.calls|);
    }
  }

  lemma RunTwice(s: System, c: nat, e: Envelope) returns (states: seq<System>, steps: seq<Step>)
    requires LedgerInv(s) && c < |s.calls| && s.calls[c].envelope.eventId == e.eventId
    requires MayRunTwice(s, c, e.eventId)
    ensures RunsTwice(s, c, e, states, steps)
  {
    var begun := Apply(s, Begin(e));
    if s.calls[c].Running? {
      BothSucceed(begun, c, |s.calls|);
      var first := Apply(begun, Succeed(c));
      states := [s, begun, first, Apply(first, Succeed(|s.calls|))];
      steps := [Begin(e), Succeed(c), Succeed(|s.calls|)];
    } else {
      states := [s, begun, Apply(begun, Succeed(|s.calls|))];
      steps := [Begin(e), Succeed(|s.calls|)];
    }
  }

  /** A call that has completed stays as it is. */
  lemma {:induction false} DoneStays(states: seq<System>, steps: seq<Step>, j: nat, k: nat, c: nat)
    requires IsPath(states, steps) && j <= k < |states| && c < |states[j].calls|
    ensures c < |states[k].calls| && (states[j].calls[c].Done? ==> states[k].calls[c] == states[j].calls[c])
    decreases k
  {
    if j < k {
      DoneStays(states, steps, j, k - 1, c);
    }
  }
}

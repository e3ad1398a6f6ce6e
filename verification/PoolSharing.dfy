/**
  Any number of queries sharing the connections of one pool (db.py), interleaved at every event.

  The only thing assumed of the driver is that it lends a connection to one query at a time.  Each query does its own
  events in the legal order, which `QueryProtocol.DBPool.RunQuery` guarantees and `RunQueryIsPath` connects.  Sessions
  outlive the queries: what a query leaves behind is what the next borrower of the connection finds.
 */
module PoolSharing {
  import opened Basics
  import opened QueryProtocol

  datatype Query = Query(schema: string, stage: Stage)

  datatype Entry = Entry(query: nat, event: Event)

  /** The current schema of each session, the queries begun so far, and what they did, in order. */
  datatype System = System(sessions: map<nat, string>, queries: seq<Query>, log: seq<Entry>)

  /**
    A query begins, or does one event.  `after` is the schema which a step leaves its session in where that is not
    determined: a connection may be replaced while it is lent or pinged, and a query may select a schema itself.
   */
  datatype Action = Begin(schema: string) | Do(query: nat, event: Event, after: string)

  function Session(s: System, conn: nat): string {
    if conn in s.sessions then s.sessions[conn] else ""
  }

  predicate Holds(q: Query, conn: nat) {
    !q.stage.Free? && !q.stage.Violation? && q.stage.conn == conn
  }

  ghost predicate NotLent(s: System, conn: nat) {
    forall q :: 0 <= q < |s.queries| ==> !Holds(s.queries[q], conn)
  }

  ghost predicate Enabled(pings: bool, s: System, a: Action) {
    a.Do? ==>
      && a.query < |s.queries|
      && !Advance(pings, s.queries[a.query].schema, s.queries[a.query].stage, a.event).Violation?
      && (a.event.Acquired? ==> NotLent(s, a.event.conn))
      && (a.event.Used? && a.event.ok ==> Target(s.queries[a.query].schema).Some?)
      && (a.event.Ran? ==> a.event.current == Session(s, a.event.conn))
  }

  /** The session after an event: a successful USE selects its target, a bare binding or release changes nothing. */
  ghost function SessionAfter(s: System, q: Query, e: Event, after: string): map<nat, string>
    requires e.Used? && e.ok ==> Target(q.schema).Some?
  {
    match e
    case AcquireFailed => s.sessions
    case Bound(_) => s.sessions
    case Released(_) => s.sessions
    case Used(c, _, ok) => s.sessions[c := if ok then Target(q.schema).value else after]
    case Acquired(c) => s.sessions[c := after]
    case Pinged(c, _) => s.sessions[c := after]
    case Ran(c, _, _) => s.sessions[c := after]
  }

  ghost function Apply(pings: bool, s: System, a: Action): System
    requires Enabled(pings, s, a)
  {
    match a
    case Begin(schema) => s.(queries := s.queries + [Query(schema, Free)])
    case Do(i, e, after) =>
      var q := s.queries[i];
      System(SessionAfter(s, q, e, after), s.queries[i := q.(stage := Advance(pings, q.schema, q.stage, e))],
             s.log + [Entry(i, e)])
  }

  ghost predicate IsPath(pings: bool, states: seq<System>, actions: seq<Action>) {
    && |states| == |actions| + 1
    && forall k :: 0 <= k < |actions| ==>
         Enabled(pings, states[k], actions[k]) && states[k + 1] == Apply(pings, states[k], actions[k])
  }

  /** A run from any sessions whatever, with no query begun. */
  ghost predicate IsRun(pings: bool, states: seq<System>, actions: seq<Action>) {
    IsPath(pings, states, actions) && states[0].queries == [] && states[0].log == []
  }

  /** No query is in violation, no connection is held twice, and a selected schema is still selected. */
  ghost predicate QueryInv(s: System, i: nat)
    requires i < |s.queries|
  {
    var q := s.queries[i];
    && !q.stage.Violation?
    && (q.stage.Selected? ==> Target(q.schema) == Some(Session(s, q.stage.conn)))
  }

  ghost predicate Apart(p: Query, q: Query) {
    forall c :: Holds(p, c) ==> !Holds(q, c)
  }

  ghost predicate Inv(s: System) {
    && (forall i :: 0 <= i < |s.queries| ==> QueryInv(s, i))
    && forall i, j :: 0 <= i < j < |s.queries| ==>
         Apart(s.queries[i], s.queries[j]) && Apart(s.queries[j], s.queries[i])
  }

  /** An event moves a query along its protocol, on the one connection it holds. */
  lemma EventOnOwnConnection(pings: bool, s: System, i: nat, e: Event, after: string)
    requires Inv(s) && Enabled(pings, s, Do(i, e, after))
    ensures var q := s.queries[i];
            var q' := q.(stage := Advance(pings, q.schema, q.stage, e));
            && !q'.stage.Violation?
            && (forall c :: Holds(q', c) ==> Holds(q, c) || e == Acquired(c))
            && (forall c :: Session(s, c) != Session(s.(sessions := SessionAfter(s, q, e, after)), c) ==>
                  Holds(q, c) || e == Acquired(c))
            && (q'.stage.Selected? ==>
                  Target(q.schema) == Some(Session(s.(sessions := SessionAfter(s, q, e, after)), q'.stage.conn)))
  {
    assert QueryInv(s, i);
  }

  lemma StepKeepsInv(pings: bool, s: System, a: Action)
    requires Inv(s) && Enabled(pings, s, a)
    ensures Inv(Apply(pings, s, a))
  {
    var t := Apply(pings, s, a);
    if a.Do? {
      EventOnOwnConnection(pings, s, a.query, a.event, a.after);
      forall i | 0 <= i < |t.queries| ensures QueryInv(t, i) {
        assert QueryInv(s, i);
        if i != a.query && s.queries[i].stage.Selected? {
          OthersKeepTheirSession(pings, s, a, i);
        }
      }
      forall i, j | 0 <= i < |t.queries| && 0 <= j < |t.queries| && i != j ensures Apart(t.queries[i], t.queries[j]) {
        assert Apart(s.queries[i], s.queries[j]) && Apart(s.queries[j], s.queries[i]);
      }
    } else {
      forall i | 0 <= i < |t.queries| ensures QueryInv(t, i) {
        if i < |s.queries| { assert QueryInv(s, i); }
      }
    }
  }

  /** A step of one query leaves alone the session of the connection another one holds. */
  lemma OthersKeepTheirSession(pings: bool, s: System, a: Action, i: nat)
    requires Inv(s) && Enabled(pings, s, a) && a.Do? && i < |s.queries| && i != a.query
    requires !s.queries[i].stage.Free? && !s.queries[i].stage.Violation?
    ensures Session(Apply(pings, s, a), s.queries[i].stage.conn) == Session(s, s.queries[i].stage.conn)
  {
    EventOnOwnConnection(pings, s, a.query, a.event, a.after);
    var c := s.queries[i].stage.conn;
    assert Holds(s.queries[i], c);
    assert Apart(s.queries[i], s.queries[a.query]);
  }

  lemma {:induction false} RunKeepsInv(pings: bool, states: seq<System>, actions: seq<Action>, k: nat)
    requires IsRun(pings, states, actions) && k < |states|
    ensures Inv(states[k])
  {
    if k > 0 {
      RunKeepsInv(pings, states, actions, k - 1);
      StepKeepsInv(pings, states[k - 1], actions[k - 1]);
    }
  }

  /** The events of one query. */
  function Project(log: seq<Entry>, i: nat): seq<Event> {
    if log == [] then []
    else
      var last := log[|log| - 1];
      Project(log[..|log| - 1], i) + if last.query == i then [last.event] else []
  }

  lemma ProjectSnoc(log: seq<Entry>, e: Entry, i: nat)
    ensures Project(log + [e], i) == if e.query == i then Project(log, i) + [e.event] else Project(log, i)
  {
    assert (log + [e])[..|log|] == log;
  }

  /**
    In every run the events of every query are a legal run of its own in which it is isolated: although others use
    the same connections before, between and after its attempts, it runs in no schema but its own.
   */
  lemma {:induction false} EveryQueryIsIsolated(pings: bool, states: seq<System>, actions: seq<Action>, k: nat, i: nat)
    requires IsRun(pings, states, actions) && k < |states| && i < |states[k].queries|
    ensures var q := states[k].queries[i];
            && Follow(pings, q.schema, Project(states[k].log, i)) == q.stage && !q.stage.Violation?
            && Isolated(q.schema, Project(states[k].log, i))
  {
    RunKeepsInv(pings, states, actions, k);
    assert QueryInv(states[k], i);
    if k > 0 {
      var s, a := states[k - 1], actions[k - 1];
      if i < |s.queries| {
        EveryQueryIsIsolated(pings, states, actions, k - 1, i);
        RunKeepsInv(pings, states, actions, k - 1);
        ProjectionGrows(pings, s, a, i);
      } else {
        NothingLoggedYet(pings, states, actions, k, i);
      }
    }
  }

  lemma ProjectionGrows(pings: bool, s: System, a: Action, i: nat)
    requires Inv(s) && Enabled(pings, s, a) && i < |s.queries|
    requires Follow(pings, s.queries[i].schema, Project(s.log, i)) == s.queries[i].stage
    requires Isolated(s.queries[i].schema, Project(s.log, i))
    ensures var t := Apply(pings, s, a);
            && t.queries[i].schema == s.queries[i].schema
            && Follow(pings, t.queries[i].schema, Project(t.log, i)) == t.queries[i].stage
            && Isolated(t.queries[i].schema, Project(t.log, i))
  {
    if a.Do? {
      ProjectSnoc(s.log, Entry(a.query, a.event), i);
      EventIsIsolated(pings, s, a);
      var es := Project(s.log, i);
      assert (es + [a.event])[..|es|] == es;
    }
  }

  lemma EventIsIsolated(pings: bool, s: System, a: Action)
    requires Inv(s) && Enabled(pings, s, a) && a.Do?
    ensures Isolates(s.queries[a.query].schema, a.event)
  {
    assert QueryInv(s, a.query);
  }

  lemma {:induction false} NothingLoggedYet(pings: bool, states: seq<System>, actions: seq<Action>, k: nat, i: nat)
    requires IsRun(pings, states, actions) && 0 < k < |states| && |states[k - 1].queries| <= i
    ensures Project(states[k].log, i) == []
    decreases k
  {
    var s, a := states[k - 1], actions[k - 1];
    if 1 < k {
      NothingLoggedYet(pings, states, actions, k - 1, i);
    }
    if a.Do? {
      assert states[k].log[..|s.log|] == s.log;
    }
  }

  /**
    Schema isolation, over every history and interleaving: whenever a query on a non-empty schema runs, the current
    schema of its session is the one that a USE for it selects.
   */
  lemma SchemaIsolation(pings: bool, states: seq<System>, actions: seq<Action>, k: nat)
    requires IsRun(pings, states, actions) && k < |actions|
    requires actions[k].Do? && actions[k].event.Ran? && states[k].queries[actions[k].query].schema != ""
    ensures Target(states[k].queries[actions[k].query].schema) == Some(actions[k].event.current)
  {
    RunKeepsInv(pings, states, actions, k);
    assert QueryInv(states[k], actions[k].query);
  }

  // ---------------------------------------------------------------- a query on its own

  /** The schema in which the next query among the events from `k` on runs. */
  function Wanted(es: seq<Event>, k: nat): string
    decreases |es| - k
  {
    if k >= |es| then "" else if es[k].Ran? then es[k].current else Wanted(es, k + 1)
  }

  /** The session of the query is in the schema that its USE selected, or else in the one it will run in. */
  ghost predicate SessionFits(t: System, q: Query, wanted: string) {
    && (q.stage.Selected? ==> q.schema != "" && Target(q.schema) == Some(Session(t, q.stage.conn)))
    && (q.schema == "" && (q.stage.Holding? || q.stage.Limited? || q.stage.Ready?) ==>
          Session(t, q.stage.conn) == wanted)
  }

  /** The trace of a query, as it may take place in `s`: legal, isolated, on connections that nobody holds. */
  ghost predicate Feasible(pings: bool, s: System, schema: string, es: seq<Event>) {
    && !Follow(pings, schema, es).Violation? && Isolated(schema, es)
    && forall k :: 0 <= k < |es| && es[k].Acquired? ==> NotLent(s, es[k].conn)
  }

  lemma EventFits(pings: bool, t: System, q: Query, e: Event, wanted: string, next: string)
    requires SessionFits(t, q, wanted) && Isolates(q.schema, e) && !Advance(pings, q.schema, q.stage, e).Violation?
    requires if e.Ran? then wanted == e.current else wanted == next
    ensures e.Ran? ==> e.current == Session(t, e.conn)
    ensures SessionFits(t.(sessions := SessionAfter(t, q, e, next)),
                        q.(stage := Advance(pings, q.schema, q.stage, e)), next)
  {
  }

  /** `t` is `s` with one more query, the last one, at that stage, and with that log. */
  ghost predicate Extends(s: System, q: Query, log: seq<Entry>, t: System) {
    t.queries == s.queries + [q] && t.log == log
  }

  lemma NextEvent(pings: bool, s: System, q: Query, log: seq<Entry>, t: System, e: Event, wanted: string,
                  next: string)
    requires Extends(s, q, log, t) && SessionFits(t, q, wanted) && Isolates(q.schema, e)
    requires !Advance(pings, q.schema, q.stage, e).Violation? && (e.Acquired? ==> NotLent(s, e.conn))
    requires if e.Ran? then wanted == e.current else wanted == next
    ensures var a, q' := Do(|s.queries|, e, next), q.(stage := Advance(pings, q.schema, q.stage, e));
            && Enabled(pings, t, a) && Extends(s, q', log + [Entry(|s.queries|, e)], Apply(pings, t, a))
            && SessionFits(Apply(pings, t, a), q', next)
  {
    EventFits(pings, t, q, e, wanted, next);
    if e.Acquired? {
      forall k | 0 <= k < |t.queries| ensures !Holds(t.queries[k], e.conn) {
        assert k < |s.queries| ==> !Holds(s.queries[k], e.conn);
      }
    }
    var a := Do(|s.queries|, e, next);
    assert Enabled(pings, t, a);
    assert SessionFits(Apply(pings, t, a), q.(stage := Advance(pings, q.schema, q.stage, e)), next);
  }

  lemma PathStep(pings: bool, states: seq<System>, actions: seq<Action>, a: Action)
    returns (states': seq<System>, actions': seq<Action>)
    requires IsPath(pings, states, actions) && Enabled(pings, states[|actions|], a)
    ensures IsPath(pings, states', actions') && states'[0] == states[0]
    ensures states'[|actions'|] == Apply(pings, states[|actions|], a)
  {
    states', actions' := states + [Apply(pings, states[|actions|], a)], actions + [a];
  }

  function Entries(query: nat, es: seq<Event>): seq<Entry> {
    if es == [] then [] else Entries(query, es[..|es| - 1]) + [Entry(query, es[|es| - 1])]
  }

  /**
    What `QueryProtocol.DBPool.RunQuery` leaves in its trace is a path here: from any system, on connections that
    nobody holds, a new query on that schema can do just those events, one after the other.
   */
  lemma {:induction false} RunQueryIsPath(pings: bool, s: System, schema: string, es: seq<Event>, n: nat)
    returns (states: seq<System>, actions: seq<Action>)
    requires Feasible(pings, s, schema, es) && n <= |es|
    ensures IsPath(pings, states, actions) && states[0] == s
    ensures var q, t := Query(schema, Follow(pings, schema, es[..n])), states[|actions|];
            Extends(s, q, s.log + Entries(|s.queries|, es[..n]), t) && SessionFits(t, q, Wanted(es, n))
  {
    if n == 0 {
      actions := [Begin(schema)];
      states := [s, Apply(pings, s, actions[0])];
    } else {
      var e, before := es[n - 1], es[..n - 1];
      states, actions := RunQueryIsPath(pings, s, schema, es, n - 1);
      Legal(pings, schema, es, n);
      IsolatedAt(schema, es, n - 1);
      assert es[..n][..n - 1] == before;
      assert e.Acquired? ==> NotLent(s, e.conn);
      var q, t := Query(schema, Follow(pings, schema, before)), states[|actions|];
      NextEvent(pings, s, q, s.log + Entries(|s.queries|, before), t, e, Wanted(es, n - 1), Wanted(es, n));
      var a := Do(|s.queries|, e, Wanted(es, n));
      states, actions := PathStep(pings, states, actions, a);
    }
  }
}

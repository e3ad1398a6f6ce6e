/**
  One query of the shared pool: acquire, bind, ping, USE, run, release, under retry (db.py).

  Connections are server sessions with a current schema.  While this query awaits, other coroutines may do anything
  to every session but the one it holds: the driver hands a connection to one borrower at a time, and the contracts
  below show that a query sends its own statements to the connection it holds and to no other.
 */
module QueryProtocol {
  import opened Basics
  import opened Retry

  // ---------------------------------------------------------------- the USE statement

  function UseStatement(schema: string): string {
    "USE `" + schema + "`"
  }

  /**
    How the server reads the rest of a statement as a quoted identifier: up to the closing backtick, two backticks
    standing for one; nothing may follow.
   */
  function ReadIdentifier(rest: string): Option<string> {
    if rest == "" then None
    else if rest[0] != '`' then Prepend(rest[0], ReadIdentifier(rest[1..]))
    else if |rest| == 1 then Some("")
    else if rest[1] == '`' then Prepend('`', ReadIdentifier(rest[2..]))
    else None
  }

  function Prepend(c: char, r: Option<string>): Option<string> {
    match r
    case None => None
    case Some(s) => Some([c] + s)
  }

  /** How the server reads a statement that selects a schema, in the form in which the pool sends it. */
  function ReadUse(text: string): Option<string> {
    if "USE `" <= text then ReadIdentifier(text[5..]) else None
  }

  /** The schema that the USE statement for `schema` selects; none if it is not a statement. */
  function Target(schema: string): Option<string> {
    ReadUse(UseStatement(schema))
  }

  lemma {:induction false} ReadQuoted(s: string)
    ensures '`' !in s ==> ReadIdentifier(s + "`") == Some(s)
    ensures '`' in s && ReadIdentifier(s + "`").Some? ==> |ReadIdentifier(s + "`").value| < |s|
  {
    var q := s + "`";
    if s != "" {
      assert q[1..] == s[1..] + "`";
      if s[0] != '`' {
        ReadQuoted(s[1..]);
        assert s == [s[0]] + s[1..];
      } else if 1 < |s| && s[1] == '`' {
        assert q[2..] == s[2..] + "`";
        ReadQuoted(s[2..]);
      } else if |s| == 1 {
        assert q[2..] == "";
      }
    }
  }

  /** USE selects exactly the schema it is given if and only if that has no backtick. */
  lemma UseSelectsExactly(schema: string)
    ensures Target(schema) == Some(schema) <==> '`' !in schema
  {
    assert "USE `" <= UseStatement(schema) && UseStatement(schema)[5..] == schema + "`";
    ReadQuoted(schema);
  }

  // ---------------------------------------------------------------- the protocol

  /** What a query does to the outside world, in order. */
  datatype Event =
    | AcquireFailed
    | Acquired(conn: nat)
    | Bound(conn: nat)                                // the socket timeout
    | Pinged(conn: nat, ok: bool)                     // may have reconnected
    | Used(conn: nat, text: string, ok: bool)
    | Ran(conn: nat, current: string, ok: bool)       // the query, in the session's current schema
    | Released(conn: nat)

  /** Where a query may be: holding no connection, or at some stage with the one it holds. */
  datatype Stage =
    | Free
    | Holding(conn: nat)   // just acquired
    | Limited(conn: nat)   // the socket is bounded, the ping is due
    | Ready(conn: nat)     // statements may follow
    | Selected(conn: nat)  // USE has succeeded
    | Over(conn: nat)      // only the release may follow
    | Violation

  /**
    The legal order of events for a query on `schema`: acquire; bound before ping; ping, if `pings`, before any
    statement; for a non-empty schema a successful USE for just that schema and then the query, on the same
    connection; release from any point; nothing else.  It does not say in which schema the query then runs.
   */
  function Advance(pings: bool, schema: string, stage: Stage, e: Event): Stage {
    match (stage, e)
    case (Free, AcquireFailed) => Free
    case (Free, Acquired(c)) => Holding(c)
    case (Holding(c), Bound(d)) => if d != c then Violation else if pings then Limited(c) else Ready(c)
    case (Limited(c), Pinged(d, ok)) => if d != c then Violation else if ok then Ready(c) else Over(c)
    case (Ready(c), Used(d, text, ok)) =>
      if d != c || schema == "" || text != UseStatement(schema) then Violation else if ok then Selected(c) else Over(c)
    case (Ready(c), Ran(d, _, _)) => if d != c || schema != "" then Violation else Over(c)
    case (Selected(c), Ran(d, _, _)) => if d != c then Violation else Over(c)
    case (Holding(c), Released(d)) => if d != c then Violation else Free
    case (Limited(c), Released(d)) => if d != c then Violation else Free
    case (Ready(c), Released(d)) => if d != c then Violation else Free
    case (Selected(c), Released(d)) => if d != c then Violation else Free
    case (Over(c), Released(d)) => if d != c then Violation else Free
    case _ => Violation
  }

  function Follow(pings: bool, schema: string, es: seq<Event>): Stage {
    if es == [] then Free else Advance(pings, schema, Follow(pings, schema, es[..|es| - 1]), es[|es| - 1])
  }

  /** How many connections were asked for, were obtained, and were given back. */
  function Asked(es: seq<Event>): nat {
    if es == [] then 0
    else Asked(es[..|es| - 1]) + if es[|es| - 1].Acquired? || es[|es| - 1].AcquireFailed? then 1 else 0
  }

  function Obtained(es: seq<Event>): nat {
    if es == [] then 0 else Obtained(es[..|es| - 1]) + if es[|es| - 1].Acquired? then 1 else 0
  }

  function GivenBack(es: seq<Event>): nat {
    if es == [] then 0 else GivenBack(es[..|es| - 1]) + if es[|es| - 1].Released? then 1 else 0
  }

  lemma {:induction false} Legal(pings: bool, schema: string, es: seq<Event>, k: nat)
    requires !Follow(pings, schema, es).Violation? && k <= |es|
    ensures !Follow(pings, schema, es[..k]).Violation?
    decreases |es| - k
  {
    if k == |es| {
      assert es[..k] == es;
    } else {
      Legal(pings, schema, es, k + 1);
      assert es[..k + 1][..k] == es[..k];
    }
  }

  /** In a legal run every connection obtained has been given back, except the one still held, if there is one. */
  lemma {:induction false} ReleasedExactlyOnce(pings: bool, schema: string, es: seq<Event>)
    requires !Follow(pings, schema, es).Violation?
    ensures Obtained(es) == GivenBack(es) + if Follow(pings, schema, es).Free? then 0 else 1
  {
    if es != [] {
      Legal(pings, schema, es, |es| - 1);
      ReleasedExactlyOnce(pings, schema, es[..|es| - 1]);
    }
  }

  /** A USE succeeds only if it is a statement, and a query on a non-empty schema runs in the schema USE selects. */
  predicate Isolates(schema: string, e: Event) {
    && (e.Used? && e.ok ==> Target(schema).Some?)
    && (e.Ran? && schema != "" ==> Target(schema) == Some(e.current))
  }

  predicate Isolated(schema: string, es: seq<Event>) {
    es == [] || (Isolated(schema, es[..|es| - 1]) && Isolates(schema, es[|es| - 1]))
  }

  lemma {:induction false} IsolatedAt(schema: string, es: seq<Event>, i: nat)
    requires Isolated(schema, es) && i < |es|
    ensures Isolates(schema, es[i])
  {
    if i < |es| - 1 {
      IsolatedAt(schema, es[..|es| - 1], i);
    }
  }

  /** If event `i` is a query, it ran in its schema, right after a successful USE for that on the same connection. */
  predicate InItsSchema(schema: string, es: seq<Event>, i: nat)
    requires i < |es|
  {
    es[i].Ran? ==>
      && Target(schema) == Some(es[i].current)
      && 0 < i && es[i - 1] == Used(es[i].conn, UseStatement(schema), true)
  }

  lemma QueriesInTheirSchema(pings: bool, schema: string, es: seq<Event>)
    requires !Follow(pings, schema, es).Violation? && Isolated(schema, es) && schema != ""
    ensures forall i :: 0 <= i < |es| ==> InItsSchema(schema, es, i)
  {
    forall i | 0 <= i < |es| ensures InItsSchema(schema, es, i) {
      IsolatedAt(schema, es, i);
      FollowsItsUse(pings, schema, es, i);
    }
  }

  /** What the stage says of the last event, and of the stage before. */
  lemma LastEvent(pings: bool, schema: string, es: seq<Event>)
    requires es != []
    ensures var last, before := es[|es| - 1], Follow(pings, schema, es[..|es| - 1]);
            match Follow(pings, schema, es)
            case Holding(c) => last == Acquired(c)
            case Limited(c) => pings && last == Bound(c) && before == Holding(c)
            case Ready(c) =>
              if pings then last == Pinged(c, true) && before == Limited(c)
              else last == Bound(c) && before == Holding(c)
            case Selected(c) => last == Used(c, UseStatement(schema), true) && before == Ready(c)
            case _ => true
  {
  }

  lemma ReadyAfter(pings: bool, schema: string, es: seq<Event>)
    requires Follow(pings, schema, es).Ready?
    ensures var c, n := Follow(pings, schema, es).conn, |es|;
            if pings then
              3 <= n && es[n - 3] == Acquired(c) && es[n - 2] == Bound(c) && es[n - 1] == Pinged(c, true)
            else 2 <= n && es[n - 2] == Acquired(c) && es[n - 1] == Bound(c)
  {
    var n := |es|;
    LastEvent(pings, schema, es);
    var bound := if pings then es[..n - 1] else es;
    if pings {
      LastEvent(pings, schema, bound);
    }
    LastEvent(pings, schema, bound[..|bound| - 1]);
  }

  /**
    In a legal run the first statement on a connection comes right after a ping that found it alive, if the pool
    pings, and that right after bounding the socket, and that right after the connection was acquired.
   */
  lemma StatementsFollowBoundAndPing(pings: bool, schema: string, es: seq<Event>, i: nat)
    requires !Follow(pings, schema, es).Violation? && i < |es|
    requires es[i].Used? || (es[i].Ran? && schema == "")
    ensures if pings then
              && 3 <= i && es[i - 3] == Acquired(es[i].conn) && es[i - 2] == Bound(es[i].conn)
              && es[i - 1] == Pinged(es[i].conn, true)
            else 2 <= i && es[i - 2] == Acquired(es[i].conn) && es[i - 1] == Bound(es[i].conn)
  {
    Legal(pings, schema, es, i + 1);
    assert es[..i + 1][..i] == es[..i];
    if Follow(pings, schema, es[..i]).Selected? {
      SelectedHasSchema(pings, schema, es[..i]);
    }
    ReadyAfter(pings, schema, es[..i]);
  }

  lemma SelectedHasSchema(pings: bool, schema: string, es: seq<Event>)
    requires Follow(pings, schema, es).Selected?
    ensures schema != ""
  {
  }

  /** The connection acquired last. */
  function LastAcquired(es: seq<Event>): Option<nat> {
    if es == [] then None
    else if es[|es| - 1].Acquired? then Some(es[|es| - 1].conn)
    else LastAcquired(es[..|es| - 1])
  }

  lemma {:induction false} HeldIsLastAcquired(pings: bool, schema: string, es: seq<Event>)
    requires !Follow(pings, schema, es).Violation?
    ensures var stage := Follow(pings, schema, es);
            stage.Free? || LastAcquired(es) == Some(stage.conn)
  {
    if es != [] {
      HeldIsLastAcquired(pings, schema, es[..|es| - 1]);
    }
  }

  /** In a legal run everything is done on the connection that was acquired last, and so is the release. */
  lemma AllOnTheSameConnection(pings: bool, schema: string, es: seq<Event>, i: nat)
    requires !Follow(pings, schema, es).Violation? && i < |es| && !es[i].AcquireFailed? && !es[i].Acquired?
    ensures LastAcquired(es[..i]) == Some(es[i].conn)
  {
    Legal(pings, schema, es, i + 1);
    assert es[..i + 1][..i] == es[..i];
    HeldIsLastAcquired(pings, schema, es[..i]);
  }

  lemma FollowsItsUse(pings: bool, schema: string, es: seq<Event>, i: nat)
    requires !Follow(pings, schema, es).Violation? && schema != "" && i < |es|
    ensures es[i].Ran? ==> 0 < i && es[i - 1] == Used(es[i].conn, UseStatement(schema), true)
  {
    Legal(pings, schema, es, i + 1);
    assert es[..i + 1][..i] == es[..i];
    if es[i].Ran? {
      assert Follow(pings, schema, es[..i]) == Selected(es[i].conn);
      assert es[..i] != [];
      assert es[..i][..i - 1] == es[..i - 1];
    }
  }

  // ---------------------------------------------------------------- what the driver does

  datatype Acquire = Gets(conn: nat) | AcquireRaises(error: Error)

  /** A ping may find the connection alive, silently reconnect it, or raise. */
  datatype Ping = Alive | Reconnects | PingRaises(error: Error)

  /** The query may leave the session in another schema, whether it returns or raises. */
  datatype Run = Rows(rows: string, after: string) | RunRaises(error: Error, after: string)

  /**
    Everything the outside world decides about one attempt.  `exit` is an exception raised by leaving the cursor or
    the connection; `others` are the sessions of the other connections, as changed during each await.
   */
  datatype Attempt = Attempt(acquire: Acquire, ping: Ping, cursor: Option<Error>, use: Option<Error>, run: Run,
                             fetch: Option<Error>, exit: Option<Error>, others: seq<map<nat, string>>)

  const SYNTAX_ERROR := Error({"ProgrammingError", "Exception"}, "syntax")
  const NOT_STARTED := Error({"DependencyUnavailableError", "Exception"}, "database pool is not started")
  const DEFAULT_TRANSIENT: set<string> := {"OSError", "OperationalError", "InterfaceError"}

  /** How the block that uses the connection ends. */
  function BlockOutcome(pings: bool, schema: string, a: Attempt): Outcome<string> {
    if pings && a.ping.PingRaises? then Raised(a.ping.error)
    else if a.cursor.Some? then Raised(a.cursor.value)
    else if schema != "" && a.use.Some? then Raised(a.use.value)
    else if schema != "" && Target(schema).None? then Raised(SYNTAX_ERROR)
    else if a.run.RunRaises? then Raised(a.run.error)
    else if a.fetch.Some? then Raised(a.fetch.value)
    else Returned(a.run.rows)
  }

  /** How an attempt ends, as far as the retry loop can see. */
  function AttemptOutcome(pings: bool, schema: string, a: Attempt): Outcome<string> {
    if a.acquire.AcquireRaises? then Raised(a.acquire.error)
    else if a.exit.Some? then Raised(a.exit.value)
    else BlockOutcome(pings, schema, a)
  }

  /** The first error there is. */
  function First(errors: seq<Option<Error>>): Option<Error> {
    if errors == [] then None else if errors[0].Some? then errors[0] else First(errors[1..])
  }

  /**
    How an attempt ends: the error of acquiring; else that of leaving, which replaces any other; else the first error
    among ping, cursor, USE, query and reading, those that do not take place not counting; else the rows.
   */
  lemma OutcomeIsFirstError(pings: bool, schema: string, a: Attempt)
    ensures var inside := First([
              if pings && a.ping.PingRaises? then Some(a.ping.error) else None,
              a.cursor,
              if schema != "" then a.use else None,
              if schema != "" && Target(schema).None? then Some(SYNTAX_ERROR) else None,
              if a.run.RunRaises? then Some(a.run.error) else None,
              a.fetch]);
            var error := First([if a.acquire.AcquireRaises? then Some(a.acquire.error) else None, a.exit, inside]);
            match AttemptOutcome(pings, schema, a)
            case Raised(e) => error == Some(e)
            case Returned(rows) => error == None && a.run.Rows? && rows == a.run.rows
  {
    var ping := if pings && a.ping.PingRaises? then Some(a.ping.error) else None;
    var use := if schema != "" then a.use else None;
    var syntax := if schema != "" && Target(schema).None? then Some(SYNTAX_ERROR) else None;
    var run := if a.run.RunRaises? then Some(a.run.error) else None;
    var acquire := if a.acquire.AcquireRaises? then Some(a.acquire.error) else None;
    FirstOf(a.fetch, []);
    FirstOf(run, [a.fetch]);
    FirstOf(syntax, [run, a.fetch]);
    FirstOf(use, [syntax, run, a.fetch]);
    FirstOf(a.cursor, [use, syntax, run, a.fetch]);
    FirstOf(ping, [a.cursor, use, syntax, run, a.fetch]);
    var inside := First([ping, a.cursor, use, syntax, run, a.fetch]);
    FirstOf(inside, []);
    FirstOf(a.exit, [inside]);
    FirstOf(acquire, [a.exit, inside]);
  }

  lemma FirstOf(error: Option<Error>, more: seq<Option<Error>>)
    ensures First([error] + more) == if error.Some? then error else First(more)
  {
    assert ([error] + more)[1..] == more;
  }

  /** The events of an attempt, in order; `current` is the schema of the session when the query runs. */
  function AttemptEvents(pings: bool, schema: string, a: Attempt, current: string): seq<Event> {
    if a.acquire.AcquireRaises? then [AcquireFailed]
    else
      var c := a.acquire.conn;
      [Acquired(c), Bound(c)] + BlockEvents(pings, schema, c, a, current) + [Released(c)]
  }

  function BlockEvents(pings: bool, schema: string, conn: nat, a: Attempt, current: string): seq<Event> {
    PingEvents(pings, conn, a)
    + if (pings && a.ping.PingRaises?) || a.cursor.Some? then []
      else UseEvents(schema, conn, a)
           + if schema != "" && !Selects(schema, a) then [] else [Ran(conn, current, a.run.Rows?)]
  }

  function PingEvents(pings: bool, conn: nat, a: Attempt): seq<Event> {
    if pings then [Pinged(conn, !a.ping.PingRaises?)] else []
  }

  function UseEvents(schema: string, conn: nat, a: Attempt): seq<Event> {
    if schema == "" then [] else [Used(conn, UseStatement(schema), Selects(schema, a))]
  }

  predicate Selects(schema: string, a: Attempt) {
    a.use.None? && Target(schema).Some?
  }

  /** The event takes place inside the block of an attempt on connection `c`. */
  predicate InBlock(pings: bool, schema: string, c: nat, a: Attempt, current: string, e: Event) {
    var live := a.cursor.None? && (pings ==> !a.ping.PingRaises?);
    match e
    case Pinged(d, ok) => d == c && pings && ok == !a.ping.PingRaises?
    case Used(d, text, ok) =>
      && d == c && live && schema != "" && text == UseStatement(schema)
      && ok == (a.use.None? && Target(schema).Some?)
    case Ran(d, schemaThen, ok) =>
      && d == c && live && (schema != "" ==> a.use.None? && Target(schema).Some?)
      && schemaThen == current && ok == a.run.Rows?
    case _ => false
  }

  lemma BlockDoes(pings: bool, schema: string, c: nat, a: Attempt, current: string, e: Event)
    ensures e in BlockEvents(pings, schema, c, a, current) <==> InBlock(pings, schema, c, a, current, e)
  {
    var block := BlockEvents(pings, schema, c, a, current);
    var rest := block[|PingEvents(pings, c, a)|..];
    assert block == PingEvents(pings, c, a) + rest;
  }

  /**
    What an attempt does, and what it does not: it binds and releases what it acquired; it pings if the pool pings;
    it sends USE if there is a schema and nothing failed before; and it runs the query if nothing failed before.
   */
  lemma AttemptDoes(pings: bool, schema: string, a: Attempt, current: string, e: Event)
    requires a.acquire.Gets?
    ensures var c := a.acquire.conn;
            e in AttemptEvents(pings, schema, a, current) <==>
              e in [Acquired(c), Bound(c), Released(c)] || InBlock(pings, schema, c, a, current, e)
  {
    BlockDoes(pings, schema, a.acquire.conn, a, current, e);
  }

  /** `current` is the schema that USE selects, if it selects one. */
  predicate RightSchema(schema: string, current: string) {
    schema != "" && Target(schema).Some? ==> Target(schema) == Some(current)
  }

  lemma Extend(pings: bool, schema: string, es: seq<Event>, e: Event)
    ensures Follow(pings, schema, es + [e]) == Advance(pings, schema, Follow(pings, schema, es), e)
    ensures Asked(es + [e]) == Asked(es) + if e.Acquired? || e.AcquireFailed? then 1 else 0
    ensures Isolated(schema, es + [e]) == (Isolated(schema, es) && Isolates(schema, e))
  {
    assert (es + [e])[..|es|] == es;
  }

  lemma BlockIsLegal(pings: bool, schema: string, conn: nat, a: Attempt, current: string, es: seq<Event>)
    requires Follow(pings, schema, es) == (if pings then Limited(conn) else Ready(conn)) && RightSchema(schema, current)
    ensures var after := es + BlockEvents(pings, schema, conn, a, current);
            && Follow(pings, schema, after) in {Ready(conn), Over(conn)} && Asked(after) == Asked(es)
            && (Isolated(schema, es) ==> Isolated(schema, after))
  {
    var pinged := es + PingEvents(pings, conn, a);
    Extend(pings, schema, es, Pinged(conn, !a.ping.PingRaises?));
    assert pings || pinged == es;
    if (pings && a.ping.PingRaises?) || a.cursor.Some? {
      assert es + BlockEvents(pings, schema, conn, a, current) == pinged;
    } else {
      var rest := UseEvents(schema, conn, a)
                  + if schema != "" && !Selects(schema, a) then [] else [Ran(conn, current, a.run.Rows?)];
      StatementsAreLegal(pings, schema, conn, a, current, pinged);
      assert es + BlockEvents(pings, schema, conn, a, current) == pinged + rest;
    }
  }

  lemma StatementsAreLegal(pings: bool, schema: string, conn: nat, a: Attempt, current: string, es: seq<Event>)
    requires Follow(pings, schema, es) == Ready(conn) && RightSchema(schema, current)
    ensures var after := es + (UseEvents(schema, conn, a)
                               + if schema != "" && !Selects(schema, a) then [] else [Ran(conn, current, a.run.Rows?)]);
            && Follow(pings, schema, after) == Over(conn) && Asked(after) == Asked(es)
            && (Isolated(schema, es) ==> Isolated(schema, after))
  {
    var used, ran := Used(conn, UseStatement(schema), Selects(schema, a)), Ran(conn, current, a.run.Rows?);
    Extend(pings, schema, es, used);
    if schema == "" {
      Extend(pings, schema, es, ran);
      assert es + ([] + [ran]) == es + [ran];
    } else if Selects(schema, a) {
      Extend(pings, schema, es + [used], ran);
      assert es + ([used] + [ran]) == es + [used] + [ran];
    } else {
      assert es + ([used] + []) == es + [used];
    }
  }

  /**
    The events of an attempt are legal and isolated, they ask for one connection, and they hold none at the end,
    however it ends.
   */
  lemma AttemptIsLegal(pings: bool, schema: string, a: Attempt, current: string, es: seq<Event>)
    requires Follow(pings, schema, es) == Free && Isolated(schema, es) && RightSchema(schema, current)
    ensures var after := es + AttemptEvents(pings, schema, a, current);
            Follow(pings, schema, after) == Free && Asked(after) == Asked(es) + 1 && Isolated(schema, after)
  {
    if a.acquire.AcquireRaises? {
      Extend(pings, schema, es, AcquireFailed);
    } else {
      var c := a.acquire.conn;
      BoundIsLegal(pings, schema, c, es);
      BlockIsLegal(pings, schema, c, a, current, es + [Acquired(c)] + [Bound(c)]);
      HeldIsLegal(pings, schema, c, es, BlockEvents(pings, schema, c, a, current));
    }
  }

  lemma BoundIsLegal(pings: bool, schema: string, c: nat, es: seq<Event>)
    requires Follow(pings, schema, es) == Free && Isolated(schema, es)
    ensures var bound := es + [Acquired(c)] + [Bound(c)];
            && Follow(pings, schema, bound) == (if pings then Limited(c) else Ready(c))
            && Asked(bound) == Asked(es) + 1 && Isolated(schema, bound)
  {
    Extend(pings, schema, es, Acquired(c));
    Extend(pings, schema, es + [Acquired(c)], Bound(c));
  }

  lemma HeldIsLegal(pings: bool, schema: string, c: nat, es: seq<Event>, inside: seq<Event>)
    requires var held := es + [Acquired(c)] + [Bound(c)] + inside;
             && Follow(pings, schema, held) in {Ready(c), Over(c)} && Asked(held) == Asked(es) + 1
             && Isolated(schema, held)
    ensures var after := es + ([Acquired(c), Bound(c)] + inside + [Released(c)]);
            Follow(pings, schema, after) == Free && Asked(after) == Asked(es) + 1 && Isolated(schema, after)
  {
    Extend(pings, schema, es + [Acquired(c)] + [Bound(c)] + inside, Released(c));
    Sandwich(es, Acquired(c), Bound(c), inside, Released(c));
  }

  lemma Sandwich(es: seq<Event>, e: Event, f: Event, inside: seq<Event>, g: Event)
    ensures es + [e] + [f] + inside + [g] == es + ([e, f] + inside + [g])
  {
  }

  /** What an attempt may do: its events, the query running in the right schema. */
  ghost predicate IsAttempt(pings: bool, schema: string, a: Attempt, es: seq<Event>) {
    exists current :: RightSchema(schema, current) && es == AttemptEvents(pings, schema, a, current)
  }

  ghost predicate AreAttempts(pings: bool, schema: string, script: seq<Attempt>, parts: seq<seq<Event>>) {
    |parts| <= |script| && forall i :: 0 <= i < |parts| ==> IsAttempt(pings, schema, script[i], parts[i])
  }

  function Concat(parts: seq<seq<Event>>): seq<Event> {
    if parts == [] then [] else Concat(parts[..|parts| - 1]) + parts[|parts| - 1]
  }

  lemma ConcatExtend(parts: seq<seq<Event>>, more: seq<Event>)
    ensures Concat(parts + [more]) == Concat(parts) + more
  {
    assert (parts + [more])[..|parts|] == parts;
  }

  lemma AttemptsExtend(pings: bool, schema: string, script: seq<Attempt>, parts: seq<seq<Event>>, part: seq<Event>)
    requires AreAttempts(pings, schema, script, parts) && |parts| < |script|
    requires IsAttempt(pings, schema, script[|parts|], part)
    ensures AreAttempts(pings, schema, script, parts + [part])
  {
    var more := parts + [part];
    forall i | 0 <= i < |more| ensures IsAttempt(pings, schema, script[i], more[i]) {
      if i < |parts| {
        assert more[i] == parts[i];
      } else {
        assert more[i] == part && i == |parts|;
      }
    }
  }

  /** So the events of attempts one after the other are legal and isolated, each asking for one connection. */
  lemma {:induction false} QueryIsLegal(pings: bool, schema: string, script: seq<Attempt>, parts: seq<seq<Event>>)
    requires AreAttempts(pings, schema, script, parts)
    ensures var es := Concat(parts);
            Follow(pings, schema, es) == Free && Asked(es) == |parts| && Isolated(schema, es)
  {
    if parts != [] {
      var n := |parts| - 1;
      QueryIsLegal(pings, schema, script, parts[..n]);
      OneMoreAttempt(pings, schema, script[n], parts[n], Concat(parts[..n]));
    }
  }

  lemma OneMoreAttempt(pings: bool, schema: string, a: Attempt, part: seq<Event>, es: seq<Event>)
    requires Follow(pings, schema, es) == Free && Isolated(schema, es) && IsAttempt(pings, schema, a, part)
    ensures Follow(pings, schema, es + part) == Free && Asked(es + part) == Asked(es) + 1 && Isolated(schema, es + part)
  {
    var current :| RightSchema(schema, current) && part == AttemptEvents(pings, schema, a, current);
    AttemptIsLegal(pings, schema, a, current, es);
  }

  /** The attempts as the retry loop meets them. */
  function World(pings: bool, schema: string, script: seq<Attempt>): (w: seq<Turn<string>>)
    ensures |w| == |script|
    ensures forall i :: 0 <= i < |script| ==> w[i].outcome == AttemptOutcome(pings, schema, script[i])
  {
    seq(|script|, i requires 0 <= i < |script| =>
      Turn([], 0.0, [], AttemptOutcome(pings, schema, script[i]), 0.0, 0.0))
  }

  /**
    The calls of a query under the pool's policy: at least one and at most `maxAttempts`; every attempt but the last
    ended in a transient error, so nothing follows any other outcome; and a transient error is the answer only of the
    last attempt allowed.
   */
  lemma OnlyTransientRetried(p: Policy, pings: bool, schema: string, script: seq<Attempt>, result: Result<string>,
                             calls: nat)
    requires 0 < p.maxAttempts <= |script|
    requires Describes(p, Unguarded, World(pings, schema, script), result, calls)
    ensures 0 < calls <= p.maxAttempts
    ensures forall i :: 0 <= i < calls - 1 ==> Transient(p, AttemptOutcome(pings, schema, script[i]))
    ensures var o := AttemptOutcome(pings, schema, script[calls - 1]);
            && result == (match o case Returned(rows) => Ok(rows) case Raised(e) => Result.Failed(e))
            && (Transient(p, o) ==> calls == p.maxAttempts)
  {
    var w := World(pings, schema, script);
    forall i | 0 <= i < calls - 1 ensures Transient(p, AttemptOutcome(pings, schema, script[i])) {
      RetriedIffListed(p, Unguarded, w, result, calls, i);
    }
    RetriedIffListed(p, Unguarded, w, result, calls, calls - 1);
  }

  /** An error of which some type is listed. */
  ghost predicate Transient(p: Policy, o: Outcome<string>) {
    o.Raised? && exists t :: t in o.error.types && t in p.retryOn
  }

  /** With the default types a rejected USE ends the query at once, and a lost connection does not. */
  lemma DefaultTransient(p: Policy, pings: bool, schema: string, script: seq<Attempt>, result: Result<string>,
                         calls: nat)
    requires 1 < p.maxAttempts <= |script| && p.retryOn == DEFAULT_TRANSIENT
    requires Describes(p, Unguarded, World(pings, schema, script), result, calls)
    ensures AttemptOutcome(pings, schema, script[0]) == Raised(SYNTAX_ERROR) ==>
              calls == 1 && result == Result.Failed(SYNTAX_ERROR)
    ensures var o := AttemptOutcome(pings, schema, script[0]);
            o.Raised? && !(o.error.types !! {"OSError", "OperationalError", "InterfaceError"}) ==> 1 < calls
  {
    OnlyTransientRetried(p, pings, schema, script, result, calls);
    var o := AttemptOutcome(pings, schema, script[0]);
    if 1 < calls {
      assert Transient(p, o);
    }
  }

  // ---------------------------------------------------------------- the pool

  class DBPool {
    const policy: Policy
    const pings: bool
    const defaultSchema: string
    const started: bool
    var sessions: map<nat, string>
    var trace: seq<Event>

    /** Whatever the caller's policy says, the pool decides which errors are retried. */
    constructor (base: Policy, transient: set<string>, pings: bool, defaultSchema: string, started: bool,
                 sessions: map<nat, string>)
      ensures policy == base.(retryOn := if transient == {} then DEFAULT_TRANSIENT else transient)
      ensures this.pings == pings && this.defaultSchema == defaultSchema && this.started == started
      ensures this.sessions == sessions && trace == []
    {
      this.policy := base.(retryOn := if transient == {} then DEFAULT_TRANSIENT else transient);
      this.pings, this.defaultSchema, this.started := pings, defaultSchema, started;
      this.sessions, trace := sessions, [];
    }

    function Current(conn: nat): string reads this {
      if conn in sessions then sessions[conn] else defaultSchema
    }

    /** The query awaits: the other coroutines change any session but the one it holds. */
    method Await(conn: nat, a: Attempt, k: nat)
      modifies `sessions
      ensures Current(conn) == old(Current(conn))
    {
      sessions := (if k < |a.others| then a.others[k] else map[])[conn := Current(conn)];
    }

    /** The query awaits holding no connection: any session may change. */
    method AwaitConnection(a: Attempt)
      modifies `sessions
    {
      if 0 < |a.others| {
        sessions := a.others[0];
      }
    }

    /** Ping before use; the exception if the ping raises. */
    method CheckLiveness(conn: nat, a: Attempt) returns (failure: Option<Error>)
      modifies this
      ensures failure == if pings && a.ping.PingRaises? then Some(a.ping.error) else None
      ensures trace == old(trace) + PingEvents(pings, conn, a)
    {
      if !pings {
        return None;
      }
      Await(conn, a, 1);
      trace := trace + [Pinged(conn, !a.ping.PingRaises?)];
      if a.ping.PingRaises? {
        return Some(a.ping.error);
      }
      if a.ping.Reconnects? {
        sessions := sessions[conn := defaultSchema];
      }
      failure := None;
    }

    /** USE, if there is a schema to select; the exception if it raises. */
    method SelectSchema(conn: nat, schema: string, a: Attempt) returns (failure: Option<Error>)
      modifies this
      ensures failure == if schema == "" then None else if a.use.Some? then a.use
                         else if Target(schema).None? then Some(SYNTAX_ERROR) else None
      ensures trace == old(trace) + UseEvents(schema, conn, a)
      ensures failure.None? && schema != "" ==> Some(Current(conn)) == Target(schema)
    {
      if schema == "" {
        return None;
      }
      Await(conn, a, 3);
      var done := a.use.None? && Target(schema).Some?;
      trace := trace + [Used(conn, UseStatement(schema), done)];
      if done {
        sessions := sessions[conn := Target(schema).value];
        return None;
      }
      failure := if a.use.Some? then a.use else Some(SYNTAX_ERROR);
    }

    /** The query itself, in the current schema of the session, and the reading of its result. */
    method RunStatement(conn: nat, a: Attempt) returns (o: Outcome<string>)
      modifies this
      ensures o == if a.run.RunRaises? then Raised(a.run.error)
                   else if a.fetch.Some? then Raised(a.fetch.value) else Returned(a.run.rows)
      ensures trace == old(trace) + [Ran(conn, old(Current(conn)), a.run.Rows?)]
    {
      Await(conn, a, 4);
      trace := trace + [Ran(conn, Current(conn), a.run.Rows?)];
      sessions := sessions[conn := a.run.after];
      if a.run.RunRaises? {
        return Raised(a.run.error);
      }
      Await(conn, a, 5);
      o := if a.fetch.Some? then Raised(a.fetch.value) else Returned(a.run.rows);
    }

    /** The statements, once the cursor is open. */
    method RunStatements(conn: nat, schema: string, a: Attempt) returns (o: Outcome<string>, ghost current: string)
      modifies this
      ensures o == if schema != "" && a.use.Some? then Raised(a.use.value)
                   else if schema != "" && Target(schema).None? then Raised(SYNTAX_ERROR)
                   else if a.run.RunRaises? then Raised(a.run.error)
                   else if a.fetch.Some? then Raised(a.fetch.value) else Returned(a.run.rows)
      ensures RightSchema(schema, current)
      ensures trace == old(trace) + (UseEvents(schema, conn, a)
                + if schema != "" && !Selects(schema, a) then [] else [Ran(conn, current, a.run.Rows?)])
    {
      current := if Target(schema).Some? then Target(schema).value else "";
      var failure := SelectSchema(conn, schema, a);
      if failure.Some? {
        return Raised(failure.value), current;
      }
      current := Current(conn);
      o := RunStatement(conn, a);
    }

    /** The block between binding and releasing a connection. */
    method WithConnection(conn: nat, schema: string, a: Attempt) returns (o: Outcome<string>, ghost current: string)
      modifies this
      ensures o == BlockOutcome(pings, schema, a)
      ensures trace == old(trace) + BlockEvents(pings, schema, conn, a, current) && RightSchema(schema, current)
    {
      current := if Target(schema).Some? then Target(schema).value else "";
      var failure := CheckLiveness(conn, a);
      if failure.Some? {
        return Raised(failure.value), current;
      }
      Await(conn, a, 2);
      if a.cursor.Some? {
        return Raised(a.cursor.value), current;
      }
      o, current := RunStatements(conn, schema, a);
    }

    /** One attempt, with a freshly acquired connection. */
    method RunAttempt(schema: string, a: Attempt) returns (o: Outcome<string>, ghost part: seq<Event>)
      modifies this
      ensures o == AttemptOutcome(pings, schema, a)
      ensures trace == old(trace) + part && IsAttempt(pings, schema, a, part)
    {
      ghost var before := trace;
      ghost var current := if Target(schema).Some? then Target(schema).value else "";
      part := AttemptEvents(pings, schema, a, current);
      if a.acquire.AcquireRaises? {
        trace := trace + [AcquireFailed];
        return Raised(a.acquire.error), part;
      }
      var conn := a.acquire.conn;
      AwaitConnection(a);
      trace := trace + [Acquired(conn)];
      trace := trace + [Bound(conn)];
      o, current := WithConnection(conn, schema, a);
      Await(conn, a, 6);
      trace := trace + [Released(conn)];
      Sandwich(before, Acquired(conn), Bound(conn), BlockEvents(pings, schema, conn, a, current), Released(conn));
      part := AttemptEvents(pings, schema, a, current);
      if a.exit.Some? {
        o := Raised(a.exit.value);
      }
    }

    /**
      A query (execute, fetch_all and fetch_one differ only in what they read from the cursor): attempts under the
      retry loop, without a breaker.  Afterwards `trace` holds the events of this query: those of its attempts, one
      after the other, which are legal.  Whatever the attempts were like, and whatever the other coroutines did to
      the other sessions, each time it ran in its own schema.
     */
    method RunQuery(schema: string, script: seq<Attempt>)
      returns (result: Result<string>, calls: nat, ghost parts: seq<seq<Event>>)
      requires policy.maxAttempts <= |script|
      modifies this
      ensures !started ==> result == Result.Failed(NOT_STARTED) && calls == 0 && trace == []
      ensures started ==> Describes(policy, Unguarded, World(pings, schema, script), result, calls)
      ensures trace == Concat(parts) && |parts| == calls && AreAttempts(pings, schema, script, parts)
      ensures Follow(pings, schema, trace) == Free && Asked(trace) == calls && Isolated(schema, trace)
      ensures schema != "" ==> forall i :: 0 <= i < |trace| ==> InItsSchema(schema, trace, i)
    {
      trace := [];
      if !started {
        return Result.Failed(NOT_STARTED), 0, [];
      }
      result, calls, parts := Attempts(schema, script);
      QueryIsLegal(pings, schema, script, parts);
      if schema != "" {
        QueriesInTheirSchema(pings, schema, trace);
      }
    }

    method Attempts(schema: string, script: seq<Attempt>)
      returns (result: Result<string>, calls: nat, ghost parts: seq<seq<Event>>)
      requires policy.maxAttempts <= |script| && trace == []
      modifies this
      ensures Describes(policy, Unguarded, World(pings, schema, script), result, calls)
      ensures trace == Concat(parts) && |parts| == calls && AreAttempts(pings, schema, script, parts)
    {
      calls, parts := 0, [];
      ghost var world := World(pings, schema, script);
      while calls < policy.maxAttempts
        invariant calls == 0 || calls < policy.maxAttempts
        invariant Going(policy, Unguarded, world, calls)
        invariant trace == Concat(parts) && |parts| == calls && AreAttempts(pings, schema, script, parts)
      {
        var o;
        o, parts := NextAttempt(schema, script, calls, parts);
        StopsAfterAttempt(policy, Unguarded, world, calls);
        calls := calls + 1;
        match o
        case Returned(rows) =>
          return Ok(rows), calls, parts;
        case Raised(e) =>
          if !Retryable(policy, e) || calls >= policy.maxAttempts {
            return Result.Failed(e), calls, parts;
          }
      }
      result := NoAttempt;
    }

    method NextAttempt(schema: string, script: seq<Attempt>, n: nat, ghost parts: seq<seq<Event>>)
      returns (o: Outcome<string>, ghost more: seq<seq<Event>>)
      requires n == |parts| < |script|
      requires trace == Concat(parts) && AreAttempts(pings, schema, script, parts)
      modifies this
      ensures o == AttemptOutcome(pings, schema, script[n])
      ensures |more| == n + 1 && trace == Concat(more) && AreAttempts(pings, schema, script, more)
    {
      ghost var part;
      o, part := RunAttempt(schema, script[n]);
      ConcatExtend(parts, part);
      AttemptsExtend(pings, schema, script, parts, part);
      more := parts + [part];
    }
  }
}

/**
  The cached set of live tenants and its refresh (db.py).

  `get_tenants` awaits only the discovery, so a call is two atomic stretches: `Begin` reads the clock and either
  serves the cache or starts a discovery, and `Land` stores what the discovery returned.  Any number of calls
  interleave; a slow discovery may land after a newer one.
 */
module TenantCache {

  type Tenants = set<string>

  /** The fields of the resolver. */
  datatype Cache = Cache(tenants: Tenants, loadedAt: real, loaded: bool)

  const EMPTY := Cache({}, 0.0, false)

  predicate Fresh(c: Cache, interval: real, now: real, force: bool) {
    !force && c.loaded && now - c.loadedAt < interval
  }

  class TenantResolver {
    const refreshInterval: real
    var cache: Tenants
    var loadedAt: real
    var loaded: bool

    function Value(): Cache reads this { Cache(cache, loadedAt, loaded) }

    constructor (refreshInterval: real)
      ensures this.refreshInterval == refreshInterval && Value() == EMPTY
    {
      this.refreshInterval := refreshInterval;
      cache, loadedAt, loaded := {}, 0.0, false;
    }

    /** The call up to its await: whether it serves the cache at once, and if so, what. */
    method Begin(now: real, force: bool) returns (hit: bool, served: Tenants)
      ensures hit == Fresh(Value(), refreshInterval, now, force)
      ensures hit ==> served == cache
    {
      served := cache;
      hit := !(force || !loaded || now - loadedAt >= refreshInterval);
    }

    /** The rest of a call that read the clock at `now`, its discovery having returned. */
    method Land(now: real, discovered: Tenants) returns (served: Tenants)
      modifies this
      ensures Value() == Cache(discovered, now, true) && served == discovered
    {
      cache := discovered;
      loadedAt := now;
      loaded := true;
      served := cache;
    }
  }

  // ---------------------------------------------------------------- interleaved calls

  /** A call waiting for its discovery, or completed; `own` says that it serves its own discovery. */
  datatype Call =
    | Discovering(now: real)
    | Served(now: real, tenants: Tenants, own: bool)
    | Raised(now: real)

  /** A discovery that returned: when it was begun, by which call, and what it found. */
  datatype Discovery = Discovery(begun: real, call: nat, tenants: Tenants)

  /** `discoveries` are those that have returned, in the order of landing. */
  datatype System = System(cache: Cache, calls: seq<Call>, discoveries: seq<Discovery>)

  const INIT := System(EMPTY, [], [])

  datatype Action =
    | Begin(now: real, force: bool)
    | Land(call: nat, tenants: Tenants)  // the discovery of that call returns
    | Fail(call: nat)                    // ... or raises

  ghost predicate Enabled(s: System, a: Action) {
    match a
    case Begin(_, _) => true
    case Land(c, _) => c < |s.calls| && s.calls[c].Discovering?
    case Fail(c) => c < |s.calls| && s.calls[c].Discovering?
  }

  ghost function Apply(interval: real, s: System, a: Action): System
    requires Enabled(s, a)
  {
    match a
    case Begin(now, force) =>
      if Fresh(s.cache, interval, now, force) then s.(calls := s.calls + [Served(now, s.cache.tenants, false)])
      else s.(calls := s.calls + [Discovering(now)])
    case Land(c, tenants) =>
      var now := s.calls[c].now;
      System(Cache(tenants, now, true), s.calls[c := Served(now, tenants, true)],
             s.discoveries + [Discovery(now, c, tenants)])
    case Fail(c) => s.(calls := s.calls[c := Raised(s.calls[c].now)])
  }

  ghost predicate IsPath(interval: real, states: seq<System>, actions: seq<Action>) {
    && |states| == |actions| + 1
    && forall k :: 0 <= k < |actions| ==>
         Enabled(states[k], actions[k]) && states[k + 1] == Apply(interval, states[k], actions[k])
  }

  ghost predicate IsRun(interval: real, states: seq<System>, actions: seq<Action>) {
    IsPath(interval, states, actions) && states[0] == INIT
  }

  /** The resolver's own methods, called in the order of a run, serve what that run serves and cache what it caches. */
  method Replay(interval: real, actions: seq<Action>, ghost states: seq<System>)
    returns (resolver: TenantResolver, calls: seq<Call>)
    requires IsRun(interval, states, actions)
    ensures resolver.Value() == states[|actions|].cache && calls == states[|actions|].calls
  {
    resolver := new TenantResolver(interval);
    calls := [];
    for k := 0 to |actions|
      invariant fresh(resolver) && resolver.refreshInterval == interval
      invariant resolver.Value() == states[k].cache && calls == states[k].calls
    {
      assert Enabled(states[k], actions[k]) && states[k + 1] == Apply(interval, states[k], actions[k]);
      match actions[k]
      case Begin(now, force) =>
        var hit, tenants := resolver.Begin(now, force);
        calls := calls + [if hit then Served(now, tenants, false) else Discovering(now)];
      case Land(c, discovered) =>
        var tenants := resolver.Land(calls[c].now, discovered);
        calls := calls[c := Served(calls[c].now, tenants, true)];
      case Fail(c) =>
        calls := calls[c := Raised(calls[c].now)];
    }
  }

  /** The set served to call `c` was found by a discovery that is recent enough, or the call's own. */
  ghost predicate Justified(interval: real, c: nat, call: Call, ds: seq<Discovery>) {
    call.Served? ==>
      exists i :: 0 <= i < |ds| && ds[i].tenants == call.tenants
        && if call.own then ds[i].call == c && ds[i].begun == call.now else ds[i].begun > call.now - interval
  }

  ghost predicate Inv(interval: real, s: System) {
    && (s.cache.loaded ==>
          exists i :: 0 <= i < |s.discoveries|
            && s.discoveries[i].tenants == s.cache.tenants && s.discoveries[i].begun == s.cache.loadedAt)
    && (forall c :: 0 <= c < |s.calls| ==> Justified(interval, c, s.calls[c], s.discoveries))
  }

  lemma JustifiedLater(interval: real, c: nat, call: Call, ds: seq<Discovery>, d: Discovery)
    requires Justified(interval, c, call, ds)
    ensures Justified(interval, c, call, ds + [d])
  {
    if call.Served? {
      var i :| 0 <= i < |ds| && ds[i].tenants == call.tenants
        && if call.own then ds[i].call == c && ds[i].begun == call.now else ds[i].begun > call.now - interval;
      assert (ds + [d])[i] == ds[i];
    }
  }

  lemma StepKeepsInv(interval: real, s: System, a: Action)
    requires Inv(interval, s) && Enabled(s, a)
    ensures Inv(interval, Apply(interval, s, a))
  {
    if a.Land? {
      var t := Apply(interval, s, a);
      var d := t.discoveries[|s.discoveries|];
      assert t.discoveries == s.discoveries + [d];
      forall c | 0 <= c < |t.calls| ensures Justified(interval, c, t.calls[c], t.discoveries) {
        if c != a.call {
          JustifiedLater(interval, c, s.calls[c], s.discoveries, d);
        }
      }
    }
  }

  lemma {:induction false} RunKeepsInv(interval: real, states: seq<System>, actions: seq<Action>, k: nat)
    requires IsRun(interval, states, actions) && k < |states|
    ensures Inv(interval, states[k])
  {
    if k > 0 {
      RunKeepsInv(interval, states, actions, k - 1);
      StepKeepsInv(interval, states[k - 1], actions[k - 1]);
    }
  }

  /**
    Freshness, under any interleaving: a set served to a call that read the clock at `now` was found by a discovery
    begun later than now - interval, or by the discovery which that call itself began at `now`.
   */
  lemma NeverServesExpired(interval: real, states: seq<System>, actions: seq<Action>, k: nat, c: nat)
    requires IsRun(interval, states, actions) && k < |states| && c < |states[k].calls| && states[k].calls[c].Served?
    ensures var call := states[k].calls[c];
            exists i :: 0 <= i < |states[k].discoveries|
              && states[k].discoveries[i].tenants == call.tenants
              && (states[k].discoveries[i].begun > call.now - interval
                  || (states[k].discoveries[i].call == c && states[k].discoveries[i].begun == call.now))
  {
    RunKeepsInv(interval, states, actions, k);
    assert Justified(interval, c, states[k].calls[c], states[k].discoveries);
  }

  /**
    A failed discovery raises and changes nothing else; in particular, if the cache had expired, then whatever
    happens other than a landing, every later call discovers again rather than being served.
   */
  lemma {:induction false} FailureNeverRevives(interval: real, states: seq<System>, actions: seq<Action>,
                                               j: nat, k: nat)
    requires IsRun(interval, states, actions) && j <= k < |states|
    requires forall i :: j <= i < k ==> !actions[i].Land?
    ensures states[k].cache == states[j].cache
    ensures forall c :: |states[j].calls| <= c < |states[k].calls| && states[k].calls[c].Served? ==>
              Fresh(states[j].cache, interval, states[k].calls[c].now, false)
    ensures |states[j].calls| <= |states[k].calls|
    decreases k
  {
    if j < k {
      FailureNeverRevives(interval, states, actions, j, k - 1);
    }
  }

  // ---------------------------------------------------------------- when the cache is used

  /** In every state of every run the cache is the discovery that landed last. */
  lemma {:induction false} CacheIsLastLanded(interval: real, states: seq<System>, actions: seq<Action>, k: nat)
    requires IsRun(interval, states, actions) && k < |states|
    ensures var ds, cache := states[k].discoveries, states[k].cache;
            && (cache.loaded <==> ds != [])
            && (ds != [] ==> cache.tenants == ds[|ds| - 1].tenants && cache.loadedAt == ds[|ds| - 1].begun)
  {
    if 0 < k {
      CacheIsLastLanded(interval, states, actions, k - 1);
    }
  }

  /**
    Exactly when a call is served without a discovery, on every run: when it is not forced and the discovery that
    landed last was begun later than now - interval; then it gets what that one found.
   */
  lemma ServedIffRecent(interval: real, states: seq<System>, actions: seq<Action>, k: nat, now: real, force: bool)
    requires IsRun(interval, states, actions) && k < |actions| && actions[k] == Begin(now, force)
    ensures var ds := states[k].discoveries;
            states[k + 1].calls == states[k].calls
              + [if !force && ds != [] && ds[|ds| - 1].begun > now - interval
                 then Served(now, ds[|ds| - 1].tenants, false) else Discovering(now)]
  {
    CacheIsLastLanded(interval, states, actions, k);
  }

  // ---------------------------------------------------------------- when the load time moves backwards

  /** The clock readings of the calls, in the order in which they begin. */
  ghost predicate Monotone(actions: seq<Action>) {
    forall i, j :: 0 <= i < j < |actions| && actions[i].Begin? && actions[j].Begin? ==> actions[i].now <= actions[j].now
  }

  predicate InFlight(s: System, c: nat) {
    c < |s.calls| && s.calls[c].Discovering?
  }

  /** A call that starts a discovery while another one is in flight. */
  ghost predicate Overlaps(interval: real, s: System, a: Action) {
    a.Begin? && !Fresh(s.cache, interval, a.now, a.force) && exists c: nat :: InFlight(s, c)
  }

  /** At most one discovery is in flight; its reading is not before the load time nor after those still to come. */
  ghost predicate OrderInv(s: System, actions: seq<Action>, k: nat) {
    && (forall c: nat, d: nat :: InFlight(s, c) && InFlight(s, d) ==> c == d)
    && (forall c: nat :: InFlight(s, c) && s.cache.loaded ==> s.cache.loadedAt <= s.calls[c].now)
    && (forall j :: k <= j < |actions| && actions[j].Begin? ==>
          && (s.cache.loaded ==> s.cache.loadedAt <= actions[j].now)
          && forall c: nat :: InFlight(s, c) ==> s.calls[c].now <= actions[j].now)
  }

  lemma StepKeepsOrder(interval: real, s: System, actions: seq<Action>, k: nat)
    requires Monotone(actions) && k < |actions| && Enabled(s, actions[k])
    requires OrderInv(s, actions, k) && !Overlaps(interval, s, actions[k])
    ensures OrderInv(Apply(interval, s, actions[k]), actions, k + 1)
    ensures !Lowers(s, Apply(interval, s, actions[k]))
    ensures s.cache.loaded ==> Apply(interval, s, actions[k]).cache.loaded
  {
    var t := Apply(interval, s, actions[k]);
    assert forall c: nat :: c < |s.calls| && InFlight(t, c) ==> InFlight(s, c) && t.calls[c] == s.calls[c];
    if actions[k].Land? {
      assert InFlight(s, actions[k].call);
    }
  }

  ghost predicate Lowers(s: System, t: System) {
    s.cache.loaded && t.cache.loadedAt < s.cache.loadedAt
  }

  /**
    On every run with a monotone clock in which no call starts a discovery while another one is in flight, the load
    time never decreases.
   */
  lemma {:induction false} LoadTimeNeverDecreases(interval: real, states: seq<System>, actions: seq<Action>,
                                                  j: nat, k: nat)
    requires IsRun(interval, states, actions) && Monotone(actions) && j <= k < |states|
    requires forall i :: 0 <= i < k ==> !Overlaps(interval, states[i], actions[i])
    ensures states[j].cache.loaded ==>
              states[k].cache.loaded && states[j].cache.loadedAt <= states[k].cache.loadedAt
    ensures OrderInv(states[k], actions, k)
    decreases k
  {
    if 0 < k {
      LoadTimeNeverDecreases(interval, states, actions, if j < k then j else k - 1, k - 1);
      StepKeepsOrder(interval, states[k - 1], actions, k - 1);
    }
  }

  /** A discovery in flight with an older reading than another one, or than the cache. */
  ghost predicate Behind(s: System, c: nat) {
    && InFlight(s, c)
    && (|| (s.cache.loaded && s.calls[c].now < s.cache.loadedAt)
        || exists d: nat :: InFlight(s, d) && s.calls[c].now < s.calls[d].now)
  }

  /** No further call begins, and the last of the discoveries to end lowers the load time. */
  ghost predicate EndsLower(interval: real, s: System, states: seq<System>, actions: seq<Action>) {
    && IsPath(interval, states, actions) && states[0] == s
    && (forall k :: 0 <= k < |actions| ==> !actions[k].Begin?)
    && 0 < |actions| && Lowers(states[|actions| - 1], states[|actions|])
  }

  /**
    In every state the discoveries in flight can end in such an order that the load time moves backwards, if and only
    if one of them is behind another one or behind the cache.
   */
  lemma LoadTimeDecreasesIff(interval: real, s: System)
    ensures (exists states, actions :: EndsLower(interval, s, states, actions)) <==> exists c: nat :: Behind(s, c)
  {
    if c: nat :| Behind(s, c) {
      var states, actions := LowerIt(interval, s, c);
    }
    forall states, actions: seq<Action> | EndsLower(interval, s, states, actions)
      ensures exists c: nat :: Behind(s, c)
    {
      if forall c: nat :: !Behind(s, c) {
        NoneFallsBehind(interval, states, actions, |actions| - 1);
        var last, a: Action := states[|actions| - 1], actions[|actions| - 1];
        assert a.Land? && InFlight(last, a.call) && !Behind(last, a.call);
      }
    }
  }

  /** Landing the newer discovery, unless the cache is newer anyway, and then the older one. */
  lemma LowerIt(interval: real, s: System, c: nat) returns (states: seq<System>, actions: seq<Action>)
    requires Behind(s, c)
    ensures EndsLower(interval, s, states, actions)
  {
    if s.cache.loaded && s.calls[c].now < s.cache.loadedAt {
      actions := [Land(c, {})];
      states := [s, Apply(interval, s, actions[0])];
    } else {
      var d: nat :| InFlight(s, d) && s.calls[c].now < s.calls[d].now;
      actions := [Land(d, {}), Land(c, {})];
      var t := Apply(interval, s, actions[0]);
      states := [s, t, Apply(interval, t, actions[1])];
    }
  }

  lemma {:induction false} NoneFallsBehind(interval: real, states: seq<System>, actions: seq<Action>, k: nat)
    requires IsPath(interval, states, actions) && k < |states|
    requires forall i :: 0 <= i < k ==> !actions[i].Begin?
    requires forall c: nat :: !Behind(states[0], c)
    ensures forall c: nat :: !Behind(states[k], c)
  {
    if 0 < k {
      NoneFallsBehind(interval, states, actions, k - 1);
      var s, t := states[k - 1], states[k];
      forall c: nat ensures !Behind(t, c) {
        assert !Behind(s, c);
        assert forall d: nat :: InFlight(t, d) ==> InFlight(s, d) && t.calls[d] == s.calls[d];
        if actions[k - 1].Land? {
          assert InFlight(s, actions[k - 1].call) && !Behind(s, actions[k - 1].call);
        }
      }
    }
  }
}

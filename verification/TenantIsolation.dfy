/**
  From a tenant id to the schema its query runs in: the resolver (db.py, tenant.py) composed with the pool (db.py).
 */
module TenantIsolation {
  import opened Basics
  import opened Retry
  import opened QueryProtocol
  import opened Tenants
  import PoolSharing
  import TenantCache

  /** A resolved name can be quoted as it stands: USE selects exactly it. */
  lemma ResolvedNameIsSelected(tenants: set<string>, id: string)
    requires Resolve(tenants, id).Schema?
    ensures var name := Resolve(tenants, id).name;
            name != "" && Target(name) == Some(name)
  {
    ResolvedCharacters(tenants, id);
    UseSelectsExactly(Resolve(tenants, id).name);
  }

  ghost predicate AllHarmless(rows: set<string>) {
    forall row :: row in rows ==> RowHarmless(rows, row)
  }

  /** The name is one of the rows that were discovered as these tenants, provided that all of them are harmless. */
  ghost predicate NamesRow(tenants: set<string>, name: string) {
    forall rows: set<string> :: LiveIds(rows) == tenants && AllHarmless(rows) ==> name in rows
  }

  lemma ResolvedNamesRow(tenants: set<string>, id: string)
    requires Resolve(tenants, id).Schema?
    ensures NamesRow(tenants, Resolve(tenants, id).name)
  {
    forall rows: set<string> | LiveIds(rows) == tenants && AllHarmless(rows)
      ensures Resolve(tenants, id).name in rows
    {
      SoundIffHarmless(rows);
    }
  }

  /** A discovery begun later than `interval` before the call read the clock, or the discovery of that call itself. */
  ghost predicate Recent(interval: real, c: nat, call: TenantCache.Call, d: TenantCache.Discovery) {
    d.begun > call.now - interval || (d.call == c && d.begun == call.now)
  }

  /**
    Resolving through the cache, under any interleaving of calls: the schema that a call resolves is a row of a
    recent discovery, provided that the rows of that discovery are harmless; never a row of an expired one only.
   */
  lemma ResolvedIsRecentRow(interval: real, states: seq<TenantCache.System>, actions: seq<TenantCache.Action>, k: nat,
                            c: nat, id: string)
    requires TenantCache.IsRun(interval, states, actions) && k < |states|
    requires c < |states[k].calls| && states[k].calls[c].Served?
    requires Resolve(states[k].calls[c].tenants, id).Schema?
    ensures var call, ds := states[k].calls[c], states[k].discoveries;
            exists i :: 0 <= i < |ds| && ds[i].tenants == call.tenants && Recent(interval, c, call, ds[i])
              && NamesRow(ds[i].tenants, Resolve(call.tenants, id).name)
  {
    var call, ds := states[k].calls[c], states[k].discoveries;
    TenantCache.NeverServesExpired(interval, states, actions, k, c);
    ResolvedNamesRow(call.tenants, id);
    var i :| 0 <= i < |ds| && ds[i].tenants == call.tenants
          && (ds[i].begun > call.now - interval || (ds[i].call == c && ds[i].begun == call.now));
    assert Recent(interval, c, call, ds[i]);
  }

  // ---------------------------------------------------------------- a query for a tenant

  const INVALID_TENANT := Error({"ValueError", "Exception"}, "invalid tenant_id")

  /** What a discovery brings: rows, or an exception. */
  datatype Discovered = Rows(rows: seq<string>) | Fails(error: Error)

  /** The tenants that a call is served: those of the cache while it is fresh, else those of its own discovery. */
  ghost function ServedTo(cache: TenantCache.Cache, interval: real, now: real, discovered: Discovered)
    : Option<set<string>>
  {
    if TenantCache.Fresh(cache, interval, now, false) then Some(cache.tenants)
    else if discovered.Rows? then Some(LiveIds(RowSet(discovered.rows)))
    else None
  }

  /** If event `i` is a query, it ran in the schema of that name, right after selecting it on the same connection. */
  ghost predicate RunsIn(name: string, trace: seq<Event>, i: nat)
    requires i < |trace|
  {
    trace[i].Ran? ==>
      trace[i].current == name && 0 < i && trace[i - 1] == Used(trace[i].conn, UseStatement(name), true)
  }

  /**
    A query for a tenant: get the tenants, from the cache or by a discovery, resolve the id, and run the query on the
    resolved schema.  If the discovery fails or the id does not resolve, it raises and no connection is asked for.
    Otherwise the query only ever runs in the resolved schema, which is a discovered row; in whatever way the
    attempts go, whatever the connections were used for before and whatever others do to other sessions meanwhile.
   */
  method QueryForTenant(resolver: TenantCache.TenantResolver, pool: DBPool, now: real, discovered: Discovered,
                        id: string, script: seq<Attempt>)
    returns (result: Result<string>, calls: nat)
    requires pool.policy.maxAttempts <= |script|
    modifies resolver, pool
    ensures var served := ServedTo(old(resolver.Value()), resolver.refreshInterval, now, discovered);
            match served
            case None =>
              && result == Result.Failed(discovered.error) && calls == 0 && pool.trace == old(pool.trace)
              && resolver.Value() == old(resolver.Value())
            case Some(tenants) =>
              match Resolve(tenants, id)
              case Invalid(_) =>
                result == Result.Failed(INVALID_TENANT) && calls == 0 && pool.trace == old(pool.trace)
              case Schema(name) =>
                && Follow(pool.pings, name, pool.trace) == Free && NamesRow(tenants, name)
                && forall i :: 0 <= i < |pool.trace| ==> RunsIn(name, pool.trace, i)
  {
    var hit, tenants := resolver.Begin(now, false);
    if !hit {
      if discovered.Fails? {
        return Result.Failed(discovered.error), 0;
      }
      var names := DiscoverDefault(discovered.rows);
      tenants := resolver.Land(now, names);
    }
    match Resolve(tenants, id)
    case Invalid(_) =>
      return Result.Failed(INVALID_TENANT), 0;
    case Schema(name) =>
      ghost var parts;
      result, calls, parts := pool.RunQuery(name, script);
      ResolvedNamesRow(tenants, id);
      ResolvedNameIsSelected(tenants, id);
      forall i | 0 <= i < |pool.trace| ensures RunsIn(name, pool.trace, i) {
        assert InItsSchema(name, pool.trace, i);
      }
  }

  /**
    Isolation between tenants on a shared pool: in every run of any number of interleaved queries, a query for a
    resolved tenant runs in the discovered row of its own name, and so never in that of another tenant.
   */
  lemma TenantsShareThePool(rows: set<string>, id: string, other: string, pings: bool,
                            states: seq<PoolSharing.System>, actions: seq<PoolSharing.Action>, k: nat)
    requires forall row :: row in rows ==> RowHarmless(rows, row)
    requires Resolve(LiveIds(rows), id).Schema? && Resolve(LiveIds(rows), other).Schema?
    requires PoolSharing.IsRun(pings, states, actions) && k < |actions|
    requires actions[k].Do? && actions[k].event.Ran?
    requires states[k].queries[actions[k].query].schema == Resolve(LiveIds(rows), id).name
    ensures actions[k].event.current == Resolve(LiveIds(rows), id).name && actions[k].event.current in rows
    ensures actions[k].event.current == Resolve(LiveIds(rows), other).name <==> Bare(id) == Bare(other)
  {
    SoundIffHarmless(rows);
    ResolvedNameIsSelected(LiveIds(rows), id);
    PoolSharing.SchemaIsolation(pings, states, actions, k);
    SameSchemaSameBare(LiveIds(rows), id, other);
  }
}

// The tenant registry and its in-process TTL cache (src/auth/tenants.ts), one process,
// one call at a time. `TenantProtocol` interleaves the same pieces.
module Tenants {
  import opened Collections

  datatype Row = Row(
    tenantId: string,
    name: Option<string>,
    disabled: bool,
    rateLimit: Option<int>,
    allowedOrigins: Option<seq<string>>,
    allowedFunctions: Option<seq<string>>,
    createdAt: int)

  datatype Tenant = Tenant(
    tenantId: string,
    name: Option<string>,
    disabled: Option<bool>,
    rateLimit: Option<int>,
    allowedOrigins: Option<seq<string>>,
    allowedFunctions: Option<seq<string>>,
    createdAt: Option<int>)

  datatype Patch = Patch(
    name: Option<string>,
    rateLimit: Option<int>,
    allowedFunctions: Option<seq<string>>,
    allowedOrigins: Option<seq<string>>,
    disabled: Option<bool>)

  datatype CacheEntry = CacheEntry(tenant: Tenant, expiresAt: int)

  type Rows = map<string, Row>

  type Cache = map<string, CacheEntry>

  function RowToTenant(row: Row): Tenant {
    Tenant(row.tenantId, row.name, Some(row.disabled), row.rateLimit, row.allowedOrigins, row.allowedFunctions,
           Some(row.createdAt))
  }

  function Coalesce<T>(first: Option<T>, second: T): T {
    if first.Some? then first.value else second
  }

  // The row an upsert writes; the database supplies a missing creation time.
  function RowFor(t: Tenant, now: int): Row {
    Row(t.tenantId, t.name, Coalesce(t.disabled, false), t.rateLimit, t.allowedOrigins, t.allowedFunctions,
        Coalesce(t.createdAt, now))
  }

  // COALESCE per column: an absent field keeps its value, so no field can be cleared.
  function Patched(row: Row, p: Patch): Row {
    row.(name := if p.name.Some? then p.name else row.name,
         rateLimit := if p.rateLimit.Some? then p.rateLimit else row.rateLimit,
         allowedFunctions := if p.allowedFunctions.Some? then p.allowedFunctions else row.allowedFunctions,
         allowedOrigins := if p.allowedOrigins.Some? then p.allowedOrigins else row.allowedOrigins,
         disabled := Coalesce(p.disabled, row.disabled))
  }

  function Stored(rows: Rows, h: string): Option<Tenant> {
    if h in rows then Some(RowToTenant(rows[h])) else None
  }

  // A disabled tenant is refused like an unknown one.
  function Visible(t: Option<Tenant>): Option<Tenant> {
    if t.Some? && t.value.disabled == Some(true) then None else t
  }

  function FreshHit(cache: Cache, h: string, now: int): Option<Tenant> {
    if h in cache && cache[h].expiresAt > now then Some(cache[h].tenant) else None
  }

  // What the answer to a lookup does to the cache.
  function CacheAnswer(cache: Cache, h: string, answer: Option<Tenant>, expiresAt: int): Cache {
    match answer
    case None => cache - {h}
    case Some(tenant) => cache[h := CacheEntry(tenant, expiresAt)]
  }

  // ---- one call ----

  datatype Op =
    | Resolve(apiKey: string, askedAt: int, answeredAt: int)
    | Put(apiKey: string, tenant: Tenant, at: int)
    | Update(hash: string, patch: Patch)
    | Revoke(hash: string)

  datatype Reply =
    | Served(tenant: Option<Tenant>)
    | Written
    | Updated(tenant: Option<Tenant>)
    | Removed(n: nat)
    | StoreDown

  datatype Store = Store(rows: Rows, cache: Cache)

  datatype Config = Config(hash: string -> string, ttlMs: int)

  // The registry without any cache.
  function Direct(c: Config, rows: Rows, op: Op, dbUp: bool): (Rows, Reply) {
    if !dbUp then (rows, StoreDown)
    else
      match op
      case Resolve(apiKey, _, _) => (rows, Served(Visible(Stored(rows, c.hash(apiKey)))))
      case Put(apiKey, tenant, at) => (rows[c.hash(apiKey) := RowFor(tenant, at)], Written)
      case Update(h, patch) =>
        if h in rows
        then (rows[h := Patched(rows[h], patch)], Updated(Some(RowToTenant(Patched(rows[h], patch)))))
        else (rows, Updated(None))
      case Revoke(h) => (rows - {h}, Removed(if h in rows then 1 else 0))
  }

  function CacheAfter(c: Config, s: Store, op: Op, dbUp: bool): Cache {
    match op
    case Resolve(apiKey, askedAt, answeredAt) =>
      var h := c.hash(apiKey);
      if FreshHit(s.cache, h, askedAt).Some? || !dbUp then s.cache
      else CacheAnswer(s.cache, h, Stored(s.rows, h), answeredAt + c.ttlMs)
    case Put(apiKey, _, _) => if dbUp then s.cache - {c.hash(apiKey)} else s.cache
    case Update(h, _) => if dbUp && h in s.rows then s.cache - {h} else s.cache
    case Revoke(h) => s.cache - {h}
  }

  function Step(c: Config, s: Store, op: Op, dbUp: bool): (Store, Reply) {
    var (rows, reply) := Direct(c, s.rows, op, dbUp);
    var hit := if op.Resolve? then FreshHit(s.cache, c.hash(op.apiKey), op.askedAt) else None;
    (Store(rows, CacheAfter(c, s, op, dbUp)), if hit.Some? then Served(Visible(hit)) else reply)
  }

  // The module: its `tenants` table, its cache, and the order in which each function
  // touches them.
  class TenantRegistry {
    const c: Config
    var rows: Rows
    var cache: Cache

    constructor (c: Config, rows: Rows)
      ensures this.c == c && this.rows == rows && cache == map[]
    {
      this.c := c;
      this.rows := rows;
      cache := map[];
    }

    method ResolveTenant(apiKey: string, askedAt: int, answeredAt: int, dbUp: bool) returns (reply: Reply)
      modifies this`cache
      ensures (Store(rows, cache), reply) ==
        Step(c, old(Store(rows, cache)), Resolve(apiKey, askedAt, answeredAt), dbUp)
    {
      var keyHash := c.hash(apiKey);
      if keyHash in cache && cache[keyHash].expiresAt > askedAt {
        var tenant := cache[keyHash].tenant;
        return Served(if tenant.disabled == Some(true) then None else Some(tenant));
      }
      if !dbUp {
        return StoreDown;
      }
      if keyHash !in rows {
        cache := cache - {keyHash};
        return Served(None);
      }
      var tenant := RowToTenant(rows[keyHash]);
      cache := cache[keyHash := CacheEntry(tenant, answeredAt + c.ttlMs)];
      reply := Served(if tenant.disabled == Some(true) then None else Some(tenant));
    }

    method PutTenant(apiKey: string, tenant: Tenant, at: int, dbUp: bool) returns (reply: Reply)
      modifies this
      ensures (Store(rows, cache), reply) == Step(c, old(Store(rows, cache)), Put(apiKey, tenant, at), dbUp)
    {
      var keyHash := c.hash(apiKey);
      if !dbUp {
        return StoreDown;
      }
      rows := rows[keyHash := RowFor(tenant, at)];
      cache := cache - {keyHash};
      reply := Written;
    }

    method UpdateTenantByHash(keyHash: string, patch: Patch, dbUp: bool) returns (reply: Reply)
      modifies this
      ensures (Store(rows, cache), reply) == Step(c, old(Store(rows, cache)), Update(keyHash, patch), dbUp)
    {
      if !dbUp {
        return StoreDown;
      }
      if keyHash !in rows {
        return Updated(None);
      }
      rows := rows[keyHash := Patched(rows[keyHash], patch)];
      cache := cache - {keyHash};
      reply := Updated(Some(RowToTenant(rows[keyHash])));
    }

    method RevokeByHash(keyHash: string, dbUp: bool) returns (reply: Reply)
      modifies this
      ensures (Store(rows, cache), reply) == Step(c, old(Store(rows, cache)), Revoke(keyHash), dbUp)
    {
      cache := cache - {keyHash};
      if !dbUp {
        return StoreDown;
      }
      reply := Removed(if keyHash in rows then 1 else 0);
      rows := rows - {keyHash};
    }

    method RevokeApiKey(apiKey: string, dbUp: bool) returns (reply: Reply)
      modifies this
      ensures (Store(rows, cache), reply) == Step(c, old(Store(rows, cache)), Revoke(c.hash(apiKey)), dbUp)
    {
      reply := RevokeByHash(c.hash(apiKey), dbUp);
    }
  }

  // ---- every sequential run ----

  ghost predicate Coherent(s: Store) {
    forall h :: h in s.cache ==> Stored(s.rows, h) == Some(s.cache[h].tenant)
  }

  function Run(c: Config, s: Store, ops: seq<(Op, bool)>): (Store, seq<Reply>)
    decreases |ops|
  {
    if ops == [] then (s, [])
    else
      var (next, reply) := Step(c, s, ops[0].0, ops[0].1);
      var (end, replies) := Run(c, next, ops[1..]);
      (end, [reply] + replies)
  }

  // The table without a cache, and what each call would answer with the database up.
  function DirectRun(c: Config, rows: Rows, ops: seq<(Op, bool)>): (Rows, seq<Reply>)
    decreases |ops|
  {
    if ops == [] then (rows, [])
    else
      var next := Direct(c, rows, ops[0].0, ops[0].1).0;
      var (end, replies) := DirectRun(c, next, ops[1..]);
      (end, [Direct(c, rows, ops[0].0, true).1] + replies)
  }

  // An outage is reported, unless the cache can answer a lookup truthfully.
  predicate Agrees(op: Op, dbUp: bool, reply: Reply, direct: Reply) {
    if dbUp then reply == direct else reply == StoreDown || (op.Resolve? && reply == direct)
  }

  lemma StepCoherent(c: Config, s: Store, op: Op, dbUp: bool)
    requires Coherent(s)
    ensures Coherent(Step(c, s, op, dbUp).0)
    ensures Agrees(op, dbUp, Step(c, s, op, dbUp).1, Direct(c, s.rows, op, true).1)
  {
  }

  // Starting from an empty cache, and whatever the clock does, every call answers as a
  // direct lookup filtered on `disabled` would, and the table evolves as without a cache.
  lemma {:induction false} CacheTransparent(c: Config, s: Store, ops: seq<(Op, bool)>)
    requires Coherent(s)
    ensures var (end, replies) := Run(c, s, ops);
      var (rows, direct) := DirectRun(c, s.rows, ops);
      && Coherent(end)
      && end.rows == rows
      && |replies| == |direct| == |ops|
      && forall i :: 0 <= i < |ops| ==> Agrees(ops[i].0, ops[i].1, replies[i], direct[i])
    decreases |ops|
  {
    if ops != [] {
      StepCoherent(c, s, ops[0].0, ops[0].1);
      CacheTransparent(c, Step(c, s, ops[0].0, ops[0].1).0, ops[1..]);
    }
  }

  // At every reachable state a served tenant is the stored row, even when the answer came
  // from the cache while the database was down.
  lemma ServedIsStored(c: Config, rows: Rows, ops: seq<(Op, bool)>, apiKey: string, askedAt: int, answeredAt: int,
                       dbUp: bool)
    ensures var s := Run(c, Store(rows, map[]), ops).0;
      var reply := Step(c, s, Resolve(apiKey, askedAt, answeredAt), dbUp).1;
      reply == Served(Visible(Stored(s.rows, c.hash(apiKey)))) || (!dbUp && reply == StoreDown)
  {
    CacheTransparent(c, Store(rows, map[]), ops);
    var s := Run(c, Store(rows, map[]), ops).0;
    StepCoherent(c, s, Resolve(apiKey, askedAt, answeredAt), dbUp);
  }

  // ---- what is provisioned is what is served ----

  predicate Writes(c: Config, op: Op, h: string) {
    match op
    case Resolve(_, _, _) => false
    case Put(apiKey, _, _) => c.hash(apiKey) == h
    case Update(key, _) => key == h
    case Revoke(key) => key == h
  }

  lemma {:induction false} OthersLeaveRow(c: Config, s: Store, ops: seq<(Op, bool)>, h: string)
    requires forall i :: 0 <= i < |ops| ==> !Writes(c, ops[i].0, h)
    ensures Stored(Run(c, s, ops).0.rows, h) == Stored(s.rows, h)
    decreases |ops|
  {
    if ops != [] {
      var next := Step(c, s, ops[0].0, ops[0].1).0;
      assert !Writes(c, ops[0].0, h);
      assert Stored(next.rows, h) == Stored(s.rows, h);
      OthersLeaveRow(c, next, ops[1..], h);
    }
  }

  // A tenant provisioned under a key is what that key resolves to, field by field, after any
  // calls that do not write its row.
  lemma {:induction false} PutThenResolve(c: Config, s: Store, apiKey: string, tenant: Tenant, at: int,
                                          ops: seq<(Op, bool)>, askedAt: int, answeredAt: int)
    requires Coherent(s)
    requires forall i :: 0 <= i < |ops| ==> !Writes(c, ops[i].0, c.hash(apiKey))
    ensures var end := Run(c, Step(c, s, Put(apiKey, tenant, at), true).0, ops).0;
      var filled := tenant.(disabled := Some(tenant.disabled == Some(true)),
                            createdAt := if tenant.createdAt.Some? then tenant.createdAt else Some(at));
      Step(c, end, Resolve(apiKey, askedAt, answeredAt), true).1 ==
        Served(if tenant.disabled == Some(true) then None else Some(filled))
  {
    var written := Step(c, s, Put(apiKey, tenant, at), true).0;
    StepCoherent(c, s, Put(apiKey, tenant, at), true);
    OthersLeaveRow(c, written, ops, c.hash(apiKey));
    CacheTransparent(c, written, ops);
    StepCoherent(c, Run(c, written, ops).0, Resolve(apiKey, askedAt, answeredAt), true);
  }

  // The tenant of a row after a patch: each field the patch gives, the old one where it gives none.
  ghost predicate MergedFrom(t: Tenant, row: Row, p: Patch) {
    && t.tenantId == row.tenantId && t.createdAt == Some(row.createdAt)
    && t.name == (if p.name.Some? then p.name else row.name)
    && t.rateLimit == (if p.rateLimit.Some? then p.rateLimit else row.rateLimit)
    && t.allowedFunctions == (if p.allowedFunctions.Some? then p.allowedFunctions else row.allowedFunctions)
    && t.allowedOrigins == (if p.allowedOrigins.Some? then p.allowedOrigins else row.allowedOrigins)
    && t.disabled == (if p.disabled.Some? then p.disabled else Some(row.disabled))
  }

  // A patched tenant is what the update replies and what the key resolves to, after any calls that
  // do not write its row; an unknown key stays unknown.
  lemma {:induction false} PatchThenResolve(c: Config, s: Store, apiKey: string, patch: Patch, ops: seq<(Op, bool)>,
                                            askedAt: int, answeredAt: int)
    requires Coherent(s)
    requires forall i :: 0 <= i < |ops| ==> !Writes(c, ops[i].0, c.hash(apiKey))
    ensures var h := c.hash(apiKey);
      var (written, reply) := Step(c, s, Update(h, patch), true);
      var resolved := Step(c, Run(c, written, ops).0, Resolve(apiKey, askedAt, answeredAt), true).1;
      if h !in s.rows then reply == Updated(None) && written.rows == s.rows && resolved == Served(None)
      else
        && reply.Updated? && reply.tenant.Some? && MergedFrom(reply.tenant.value, s.rows[h], patch)
        && resolved == Served(if reply.tenant.value.disabled == Some(true) then None else reply.tenant)
  {
    var op := Update(c.hash(apiKey), patch);
    var written := Step(c, s, op, true).0;
    StepCoherent(c, s, op, true);
    OthersLeaveRow(c, written, ops, c.hash(apiKey));
    CacheTransparent(c, written, ops);
    StepCoherent(c, Run(c, written, ops).0, Resolve(apiKey, askedAt, answeredAt), true);
  }

  // What a lookup found is answered again without the database for exactly one TTL.
  lemma CachedForTtl(c: Config, s: Store, apiKey: string, askedAt: int, answeredAt: int, again: int, later: int)
    requires c.hash(apiKey) in s.rows
    requires c.hash(apiKey) in s.cache ==> s.cache[c.hash(apiKey)].expiresAt <= askedAt
    ensures var (found, reply) := Step(c, s, Resolve(apiKey, askedAt, answeredAt), true);
      Step(c, found, Resolve(apiKey, again, later), false).1 ==
        if again < answeredAt + c.ttlMs then reply else StoreDown
  {
  }

  lemma {:induction false} StaysUnknown(c: Config, s: Store, ops: seq<(Op, bool)>, h: string)
    requires h !in s.rows
    requires forall i :: 0 <= i < |ops| ==> !Writes(c, ops[i].0, h) || ops[i].0.Update?
    ensures h !in Run(c, s, ops).0.rows
    decreases |ops|
  {
    if ops != [] {
      assert !Writes(c, ops[0].0, h) || ops[0].0.Update?;
      StaysUnknown(c, Step(c, s, ops[0].0, ops[0].1).0, ops[1..], h);
    }
  }

  // After a hard revoke the key is refused for good, until it is provisioned again.
  lemma {:induction false} RevokeThenResolve(c: Config, s: Store, apiKey: string, ops: seq<(Op, bool)>, askedAt: int,
                                             answeredAt: int, dbUp: bool)
    requires Coherent(s)
    requires forall i :: 0 <= i < |ops| ==> !Writes(c, ops[i].0, c.hash(apiKey)) || ops[i].0.Update?
    ensures var end := Run(c, Step(c, s, Revoke(c.hash(apiKey)), true).0, ops).0;
      Step(c, end, Resolve(apiKey, askedAt, answeredAt), dbUp).1 in {Served(None), StoreDown}
  {
    var revoked := Step(c, s, Revoke(c.hash(apiKey)), true).0;
    StepCoherent(c, s, Revoke(c.hash(apiKey)), true);
    StaysUnknown(c, revoked, ops, c.hash(apiKey));
    CacheTransparent(c, revoked, ops);
    StepCoherent(c, Run(c, revoked, ops).0, Resolve(apiKey, askedAt, answeredAt), dbUp);
  }
}

/** Connection handlers: registries that map an owner (the connection
    specification name of a family of models) and a shard to a connection pool.

    A pool is modelled by what identifies it (owner, role, shard, resolved
    configuration) and by whether it currently has a connection checked out.
    Physical sessions, checkout queues and timeouts are not modelled.
 */
module ConnectionHandlers {
  import opened Common

  type Role = string
  type Shard = string
  type OwnerName = string

  /** A resolved database configuration; `replica` marks a read-only replica. */
  datatype DbConfig = DbConfig(name: string, database: string, replica: bool)

  datatype PoolKey = PoolKey(owner: OwnerName, shard: Shard)

  datatype Pool = Pool(owner: OwnerName, role: Role, shard: Shard, config: DbConfig, active: bool)

  /** A handler's pools and its handler-level (legacy) write-prevention flag. */
  datatype Handler = Handler(pools: map<PoolKey, Pool>, preventWrites: bool)

  const EmptyHandler: Handler := Handler(map[], false)

  /** Every pool is filed under its own owner and shard. */
  ghost predicate WellFiled(h: Handler) {
    forall k :: k in h.pools ==> h.pools[k].owner == k.owner && h.pools[k].shard == k.shard
  }

  /** `retrieve_connection_pool`: the pool for an owner and shard, or nothing;
      it never fails. */
  function RetrieveConnectionPool(h: Handler, owner: OwnerName, shard: Shard): (r: Option<Pool>)
    ensures r.Some? <==> PoolKey(owner, shard) in h.pools
    ensures r.Some? ==> r.value == h.pools[PoolKey(owner, shard)]
  {
    var key := PoolKey(owner, shard);
    if key in h.pools then Some(h.pools[key]) else None
  }

  /** `connection_pools`: every pool the handler owns. */
  function ConnectionPools(h: Handler): (ps: set<Pool>)
    ensures forall k :: k in h.pools ==> h.pools[k] in ps
    ensures forall p :: p in ps ==> exists k :: k in h.pools && h.pools[k] == p
  {
    h.pools.Values
  }

  /** `establish_connection`: a fresh pool for (owner, shard) that replaces any
      earlier one; no other pool and not the prevention flag is touched. */
  function EstablishConnection(h: Handler, owner: OwnerName, role: Role, shard: Shard, config: DbConfig): (r: (Handler, Pool))
    ensures RetrieveConnectionPool(r.0, owner, shard) == Some(r.1)
    ensures r.1.owner == owner && r.1.role == role && r.1.shard == shard && r.1.config == config
    ensures !r.1.active
    ensures r.0.preventWrites == h.preventWrites
    ensures r.0.pools.Keys == h.pools.Keys + {PoolKey(owner, shard)}
    ensures forall k :: k in h.pools && k != PoolKey(owner, shard) ==> r.0.pools[k] == h.pools[k]
    ensures WellFiled(h) ==> WellFiled(r.0)
  {
    var pool := Pool(owner, role, shard, config, false);
    (h.(pools := h.pools[PoolKey(owner, shard) := pool]), pool)
  }

  /** `active_connections?`: some pool of the handler has a connection checked out. */
  predicate ActiveConnections(h: Handler) {
    exists k :: k in h.pools && h.pools[k].active
  }

  /** The message of the `ConnectionNotEstablished` raised when an owner has no
      pool under the role in use. */
  function NoPoolMessage(owner: OwnerName, role: Role): string {
    "No connection pool for '" + owner + "' found for the '" + role + "' role."
  }

  /** `retrieve_connection`: checks a connection out of the owner's pool, so
      that pool becomes active; raises `ConnectionNotEstablished` when the owner
      has no pool. */
  function RetrieveConnection(h: Handler, owner: OwnerName, role: Role, shard: Shard): (r: Result<Handler>)
    ensures r.Failure? <==> RetrieveConnectionPool(h, owner, shard).None?
    ensures r.Failure? ==> r.error == ConnectionNotEstablished(NoPoolMessage(owner, role))
    ensures r.Success? ==> ActiveConnections(r.value)
    ensures r.Success? ==> r.value.pools.Keys == h.pools.Keys && r.value.preventWrites == h.preventWrites
    ensures r.Success? ==> forall k :: k in h.pools ==>
              r.value.pools[k] == (if k == PoolKey(owner, shard) then h.pools[k].(active := true) else h.pools[k])
  {
    var key := PoolKey(owner, shard);
    if key !in h.pools then Failure(ConnectionNotEstablished(NoPoolMessage(owner, role)))
    else
      var h' := h.(pools := h.pools[key := h.pools[key].(active := true)]);
      assert h'.pools[key].active;
      Success(h')
  }

  /** `clear_active_connections!`: returns every checked-out connection, so the
      handler has no active connection; its pools are otherwise unchanged. */
  function ClearActiveConnections(h: Handler): (r: Handler)
    ensures !ActiveConnections(r)
    ensures r.pools.Keys == h.pools.Keys && r.preventWrites == h.preventWrites
    ensures forall k :: k in h.pools ==> r.pools[k] == h.pools[k].(active := false)
  {
    h.(pools := map k | k in h.pools :: h.pools[k].(active := false))
  }

  /** A handler that just had one pool established on it owns exactly that pool,
      has no active connection, finds the pool for its owner and nothing for any
      other owner. */
  lemma FreshHandlerScenario(owner: OwnerName, other: OwnerName, role: Role, shard: Shard, config: DbConfig)
    requires other != owner
    ensures var (h, pool) := EstablishConnection(EmptyHandler, owner, role, shard, config);
      && ConnectionPools(h) == {pool}
      && !ActiveConnections(h)
      && RetrieveConnectionPool(h, owner, shard) == Some(pool)
      && RetrieveConnectionPool(h, other, shard) == None
  {
    var (h, pool) := EstablishConnection(EmptyHandler, owner, role, shard, config);
    assert h.pools == map[PoolKey(owner, shard) := pool];
  }

  /** Checking a connection out and clearing returns the handler to having no
      active connection, with the same pools as before the checkout. */
  lemma CheckoutThenClear(h: Handler, owner: OwnerName, role: Role, shard: Shard)
    requires !ActiveConnections(h)
    requires RetrieveConnectionPool(h, owner, shard).Some?
    ensures RetrieveConnection(h, owner, role, shard).Success?
    ensures ActiveConnections(RetrieveConnection(h, owner, role, shard).value)
    ensures ClearActiveConnections(RetrieveConnection(h, owner, role, shard).value) == h
  {
    var h1 := RetrieveConnection(h, owner, role, shard).value;
    var h2 := ClearActiveConnections(h1);
    forall k | k in h.pools ensures h2.pools[k] == h.pools[k] {
      assert !h.pools[k].active;
    }
    assert h2.pools == h.pools;
  }
}

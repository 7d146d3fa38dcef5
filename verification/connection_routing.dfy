/** The execution context that routes queries: a stack of `{role, shard,
    prevent_writes}` frames pushed by `connected_to` and popped when its block
    ends, a registry from role to connection handler, and the process-wide
    settings (legacy handling, the writing and reading role names).

    Ruby keeps the stack in thread-local state and runs the caller's block in
    between push and pop. Here the context is an explicit value and a block is
    a function from the context it starts in to the context it ends in and what
    it returned or raised; restoring on every exit path is then a property of
    the scoped operations.
 */
module ConnectionRouting {
  import opened Common
  import opened ConnectionHandlers
  import QueryClassifier
  import WriteGuard
  import ClassHierarchy

  /** Process-wide configuration. In legacy mode prevention set by
      `connected_to` and `while_preventing_writes` lives on the role's handler;
      otherwise it lives on the frame. */
  datatype Settings = Settings(legacy: bool, writingRole: Role, readingRole: Role, defaultShard: Shard)

  const DefaultWritingRole: Role := "writing"
  const DefaultReadingRole: Role := "reading"
  const DefaultShard: Shard := "default"

  function DefaultSettings(legacy: bool): (s: Settings)
    ensures s.writingRole == "writing" && s.readingRole == "reading"
  {
    Settings(legacy, DefaultWritingRole, DefaultReadingRole, DefaultShard)
  }

  datatype Frame = Frame(role: Role, shard: Shard, preventWrites: bool)

  datatype Context = Context(settings: Settings, handlers: map<Role, Handler>, stack: seq<Frame>)

  /** What a block leaves behind: the context it ends in and its outcome. */
  datatype Step<T> = Step(ctx: Context, outcome: Outcome<T>)

  const MissingRoleAndShardMessage: string := "must provide a `shard` and/or `role`."

  /** The frame in effect: the innermost pushed one, or the default frame. */
  function TopFrame(ctx: Context): Frame {
    if |ctx.stack| == 0 then Frame(ctx.settings.writingRole, ctx.settings.defaultShard, false)
    else ctx.stack[|ctx.stack| - 1]
  }

  /** `current_role`. */
  function CurrentRole(ctx: Context): Role {
    TopFrame(ctx).role
  }

  /** `current_shard`. */
  function CurrentShard(ctx: Context): Shard {
    TopFrame(ctx).shard
  }

  /** `connected_to?(role:, shard:)`. */
  predicate IsConnectedTo(ctx: Context, role: Role, shard: Shard) {
    CurrentRole(ctx) == role && CurrentShard(ctx) == shard
  }

  /** `connected_to?(role:)`: the shard defaults to the default shard. */
  predicate IsConnectedToRole(ctx: Context, role: Role) {
    IsConnectedTo(ctx, role, ctx.settings.defaultShard)
  }

  /** The handler registered for `role`; a role without one behaves as an empty
      handler, which owns no pool. */
  function LookupHandler(handlers: map<Role, Handler>, role: Role): Handler {
    if role in handlers then handlers[role] else EmptyHandler
  }

  /** `connection_handler`: the handler of the current role. */
  function CurrentHandler(ctx: Context): Handler {
    LookupHandler(ctx.handlers, CurrentRole(ctx))
  }

  /** Registers an empty handler for `role` if it has none (`||=`). */
  function EnsureHandler(ctx: Context, role: Role): (r: Context)
    ensures role in r.handlers
    ensures r.handlers[role] == LookupHandler(ctx.handlers, role)
    ensures r.settings == ctx.settings && r.stack == ctx.stack
    ensures forall q :: q in ctx.handlers ==> q in r.handlers && r.handlers[q] == ctx.handlers[q]
  {
    if role in ctx.handlers then ctx else ctx.(handlers := ctx.handlers[role := EmptyHandler])
  }

  /** Sets the handler-level prevention flag of `role`'s handler. */
  function SetHandlerPrevention(ctx: Context, role: Role, enabled: bool): (r: Context)
    requires role in ctx.handlers
    ensures role in r.handlers && r.handlers[role].preventWrites == enabled
    ensures r.handlers[role].pools == ctx.handlers[role].pools
    ensures r.handlers.Keys == ctx.handlers.Keys
    ensures forall q :: q in ctx.handlers && q != role ==> r.handlers[q] == ctx.handlers[q]
    ensures r.settings == ctx.settings && r.stack == ctx.stack
  {
    ctx.(handlers := ctx.handlers[role := ctx.handlers[role].(preventWrites := enabled)])
  }

  /** `current_preventing_writes`: prevention requested by the frame in effect
      or set on the current handler. */
  predicate PreventingWrites(ctx: Context) {
    TopFrame(ctx).preventWrites || CurrentHandler(ctx).preventWrites
  }

  /** `preventing_writes?` of a connection from `pool`: replicas always refuse
      writes. */
  predicate ConnectionPreventingWrites(ctx: Context, pool: Pool) {
    pool.config.replica || PreventingWrites(ctx)
  }

  /** The context a `connected_to` block runs in. Unspecified role or shard
      are inherited from the frame in effect; naming the reading role prevents
      writes, but an inherited reading role does not (a nested shard-only
      `connected_to` lifts the prevention in modern handling). In legacy mode the role's handler is registered if missing and its
      flag carries the prevention; otherwise the new frame does. */
  function Enter(ctx: Context, role: Option<Role>, shard: Option<Shard>, preventWrites: bool): (r: Context)
    ensures CurrentRole(r) == role.GetOr(CurrentRole(ctx))
    ensures CurrentShard(r) == shard.GetOr(CurrentShard(ctx))
    ensures r.settings == ctx.settings
    ensures |r.stack| == |ctx.stack| + 1 && r.stack[..|ctx.stack|] == ctx.stack
    ensures !ctx.settings.legacy ==> r.handlers == ctx.handlers
    ensures CurrentHandler(r).pools == LookupHandler(ctx.handlers, CurrentRole(r)).pools
    ensures preventWrites || role == Some(ctx.settings.readingRole) ==> PreventingWrites(r)
    ensures ctx.settings.legacy ==>
              (PreventingWrites(r) <==> preventWrites || role == Some(ctx.settings.readingRole))
    ensures !ctx.settings.legacy ==>
              (PreventingWrites(r) <==> || preventWrites || role == Some(ctx.settings.readingRole)
                                        || LookupHandler(ctx.handlers, CurrentRole(r)).preventWrites)
  {
    var newRole := role.GetOr(CurrentRole(ctx));
    var newShard := shard.GetOr(CurrentShard(ctx));
    var prevent := preventWrites || role == Some(ctx.settings.readingRole);
    if ctx.settings.legacy then
      var c := SetHandlerPrevention(EnsureHandler(ctx, newRole), newRole, prevent);
      c.(stack := ctx.stack + [Frame(newRole, newShard, false)])
    else
      ctx.(stack := ctx.stack + [Frame(newRole, newShard, prevent)])
  }

  /** The context after a `connected_to` block that started in `before` and
      ended in `after`: the frame is popped, restoring the stack of `before`, and
      in legacy mode the handler flag the block set is put back. */
  function Leave(before: Context, role: Role, after: Context): (r: Context)
    ensures r.stack == before.stack
    ensures r.settings == after.settings
    ensures r.handlers.Keys == after.handlers.Keys + (if before.settings.legacy then {role} else {})
    ensures before.settings.legacy ==>
              r.handlers[role].preventWrites == LookupHandler(before.handlers, role).preventWrites
    ensures forall q :: q in after.handlers && (q != role || !before.settings.legacy) ==>
              r.handlers[q] == after.handlers[q]
  {
    if before.settings.legacy then
      var h := LookupHandler(after.handlers, role);
      var original := LookupHandler(before.handlers, role).preventWrites;
      after.(stack := before.stack, handlers := after.handlers[role := h.(preventWrites := original)])
    else
      after.(stack := before.stack)
  }

  /** `connected_to(role:, shard:, prevent_writes:) { block }`. Raises
      `ArgumentError` when neither role nor shard is given; otherwise runs the
      block in the entered context, returns what the block returned or raised,
      and restores the frame stack on every exit path. */
  function ConnectedTo<T>(ctx: Context, role: Option<Role>, shard: Option<Shard>, preventWrites: bool,
                          body: Context -> Step<T>): (r: Step<T>)
    ensures role.None? && shard.None? ==>
              r == Step(ctx, Raised(ArgumentError(MissingRoleAndShard, MissingRoleAndShardMessage)))
    ensures role.Some? || shard.Some? ==>
              r.outcome == body(Enter(ctx, role, shard, preventWrites)).outcome
    ensures r.ctx.stack == ctx.stack
  {
    if role.None? && shard.None? then
      Step(ctx, Raised(ArgumentError(MissingRoleAndShard, MissingRoleAndShardMessage)))
    else
      var inner := Enter(ctx, role, shard, preventWrites);
      var s := body(inner);
      Step(Leave(ctx, CurrentRole(inner), s.ctx), s.outcome)
  }

  /** The context the block of the class-level `while_preventing_writes(enabled)`
      runs in. In legacy mode it is handler-level prevention on the current
      handler; otherwise it is `connected_to` the current role with
      `prevent_writes: enabled`. */
  function EnterPrevention(ctx: Context, enabled: bool): (r: Context)
    ensures CurrentRole(r) == CurrentRole(ctx) && CurrentShard(r) == CurrentShard(ctx)
    ensures CurrentHandler(r).pools == CurrentHandler(ctx).pools
    ensures enabled ==> PreventingWrites(r)
  {
    if ctx.settings.legacy then EnterHandlerPrevention(ctx, enabled)
    else Enter(ctx, Some(CurrentRole(ctx)), None, enabled)
  }

  /** Class-level `while_preventing_writes(enabled) { block }`. */
  function WhilePreventingWrites<T>(ctx: Context, enabled: bool, body: Context -> Step<T>): (r: Step<T>)
    ensures r.outcome == body(EnterPrevention(ctx, enabled)).outcome
    ensures !ctx.settings.legacy ==> r.ctx.stack == ctx.stack
    ensures ctx.settings.legacy ==>
              && CurrentRole(ctx) in r.ctx.handlers
              && r.ctx.handlers[CurrentRole(ctx)].preventWrites == CurrentHandler(ctx).preventWrites
  {
    if ctx.settings.legacy then HandlerWhilePreventingWrites(ctx, enabled, body)
    else ConnectedTo(ctx, Some(CurrentRole(ctx)), None, enabled, body)
  }

  /** The context the block of the handler-level
      `connection_handler.while_preventing_writes(enabled)` runs in: the current
      handler's flag is set; the frame stack is untouched. */
  function EnterHandlerPrevention(ctx: Context, enabled: bool): (r: Context)
    ensures r.stack == ctx.stack && r.settings == ctx.settings
    ensures CurrentHandler(r).pools == CurrentHandler(ctx).pools
    ensures CurrentHandler(r).preventWrites == enabled
    ensures enabled ==> PreventingWrites(r)
  {
    var role := CurrentRole(ctx);
    SetHandlerPrevention(EnsureHandler(ctx, role), role, enabled)
  }

  /** Handler-level `while_preventing_writes(enabled) { block }`: sets the
      current handler's flag for the block and puts the previous value back on
      every exit path. */
  function HandlerWhilePreventingWrites<T>(ctx: Context, enabled: bool, body: Context -> Step<T>): (r: Step<T>)
    ensures r.outcome == body(EnterHandlerPrevention(ctx, enabled)).outcome
    ensures CurrentRole(ctx) in r.ctx.handlers
    ensures r.ctx.handlers[CurrentRole(ctx)].preventWrites == CurrentHandler(ctx).preventWrites
  {
    var role := CurrentRole(ctx);
    var s := body(EnterHandlerPrevention(ctx, enabled));
    var h := LookupHandler(s.ctx.handlers, role);
    Step(s.ctx.(handlers := s.ctx.handlers[role := h.(preventWrites := CurrentHandler(ctx).preventWrites)]),
         s.outcome)
  }

  /** Executes `sql` for `owner` under the current role and shard: the owner's
      pool must exist (else `ConnectionNotEstablished`), a connection is checked
      out of it, and the write-prevention guard decides. */
  function Execute(ctx: Context, owner: OwnerName, sql: string): (r: Step<()>)
    ensures RetrieveConnectionPool(CurrentHandler(ctx), owner, CurrentShard(ctx)).None? ==>
              r == Step(ctx, Raised(ConnectionNotEstablished(NoPoolMessage(owner, CurrentRole(ctx)))))
    ensures RetrieveConnectionPool(CurrentHandler(ctx), owner, CurrentShard(ctx)).Some? ==>
              var pool := RetrieveConnectionPool(CurrentHandler(ctx), owner, CurrentShard(ctx)).value;
              && r.outcome == WriteGuard.CheckQuery(sql, ConnectionPreventingWrites(ctx, pool))
              && ActiveConnections(CurrentHandler(r.ctx))
    ensures r.ctx.stack == ctx.stack && r.ctx.settings == ctx.settings
    ensures r.ctx.handlers.Keys == ctx.handlers.Keys
    ensures forall q :: q in ctx.handlers ==> r.ctx.handlers[q].preventWrites == ctx.handlers[q].preventWrites
  {
    var role := CurrentRole(ctx);
    var shard := CurrentShard(ctx);
    match RetrieveConnection(CurrentHandler(ctx), owner, role, shard)
    case Failure(e) => Step(ctx, Raised(e))
    case Success(h) =>
      var pool := CurrentHandler(ctx).pools[PoolKey(owner, shard)];
      Step(ctx.(handlers := ctx.handlers[role := h]),
           WriteGuard.CheckQuery(sql, ConnectionPreventingWrites(ctx, pool)))
  }

  /** The connection specification name a model's queries are routed under:
      the nearest class in its chain that established a connection, else the
      primary `ActiveRecord::Base`. */
  function OwnerOf(chain: ClassHierarchy.ClassChain, established: map<ClassHierarchy.ClassName, OwnerName>): (r: OwnerName)
    ensures chain[0] in established ==> r == established[chain[0]]
    ensures forall i :: 0 <= i < |chain| && chain[i] in established && ClassHierarchy.NoneSetBefore(chain, established, i) ==>
              r == established[chain[i]]
    ensures (forall i :: 0 <= i < |chain| ==> chain[i] !in established) ==> r == "ActiveRecord::Base"
  {
    ClassHierarchy.Inherited(chain, established, "ActiveRecord::Base")
  }

  /** Sets the process-wide writing role name; nothing else changes. */
  function SetWritingRole(s: Settings, role: Role): (r: Settings)
    ensures r.writingRole == role
    ensures r.readingRole == s.readingRole && r.legacy == s.legacy && r.defaultShard == s.defaultShard
  {
    s.(writingRole := role)
  }

  /** Sets the process-wide reading role name; nothing else changes. */
  function SetReadingRole(s: Settings, role: Role): (r: Settings)
    ensures r.readingRole == role
    ensures r.writingRole == s.writingRole && r.legacy == s.legacy && r.defaultShard == s.defaultShard
  {
    s.(readingRole := role)
  }

  /** One database entry of `connects_to`: a role, a shard and its configuration. */
  datatype Establish = Establish(role: Role, shard: Shard, config: DbConfig)

  /** Entries name distinct (role, shard) pairs, as the keys of Ruby hashes do. */
  predicate DistinctEntries(entries: seq<Establish>) {
    forall i, j :: 0 <= i < j < |entries| ==>
      (entries[i].role, entries[i].shard) != (entries[j].role, entries[j].shard)
  }

  /** The roles the entries name. */
  function EntryRoles(entries: seq<Establish>): set<Role> {
    set i | 0 <= i < |entries| :: entries[i].role
  }

  /** One entry of `connects_to`: establishes the pool on the entry's role
      handler, registering the handler if needed; other handlers, the other
      pools of that handler and every existing flag are unchanged. */
  function EstablishEntry(ctx: Context, owner: OwnerName, e: Establish): (res: (Context, Pool))
    ensures var (r, pool) := res;
      && e.role in r.handlers
      && RetrieveConnectionPool(r.handlers[e.role], owner, e.shard) == Some(pool)
      && pool.config == e.config && pool.role == e.role
      && r.stack == ctx.stack && r.settings == ctx.settings
      && r.handlers.Keys == ctx.handlers.Keys + {e.role}
      && r.handlers[e.role].preventWrites == LookupHandler(ctx.handlers, e.role).preventWrites
      && (forall q :: q in ctx.handlers && q != e.role ==> r.handlers[q] == ctx.handlers[q])
      && (forall k :: k in LookupHandler(ctx.handlers, e.role).pools && k != PoolKey(owner, e.shard) ==>
            k in r.handlers[e.role].pools && r.handlers[e.role].pools[k] == LookupHandler(ctx.handlers, e.role).pools[k])
  {
    var c := EnsureHandler(ctx, e.role);
    var (h, pool) := EstablishConnection(c.handlers[e.role], owner, e.role, e.shard, e.config);
    (c.(handlers := c.handlers[e.role := h]), pool)
  }

  /** The first `n` entries have their pools, in order, on their role handlers. */
  ghost predicate PoolsPlaced(r: Context, owner: OwnerName, entries: seq<Establish>, pools: seq<Pool>, n: nat) {
    && n <= |entries| && |pools| == n
    && forall i :: 0 <= i < n ==>
         && entries[i].role in r.handlers
         && RetrieveConnectionPool(r.handlers[entries[i].role], owner, entries[i].shard) == Some(pools[i])
         && pools[i].config == entries[i].config && pools[i].role == entries[i].role
  }

  /** What `connects_to` leaves alone: the flags of existing handlers (new
      handlers start unflagged), other owners' pools, and the handlers of roles
      no entry names. */
  ghost predicate OthersKept(ctx: Context, r: Context, owner: OwnerName, entries: seq<Establish>) {
    && ctx.handlers.Keys <= r.handlers.Keys
    && (forall q :: q in ctx.handlers ==> r.handlers[q].preventWrites == ctx.handlers[q].preventWrites)
    && (forall q :: q in r.handlers && q !in ctx.handlers ==> !r.handlers[q].preventWrites)
    && (forall q, k :: q in ctx.handlers && k in ctx.handlers[q].pools && k.owner != owner ==>
          k in r.handlers[q].pools && r.handlers[q].pools[k] == ctx.handlers[q].pools[k])
    && (forall q :: q in ctx.handlers && q !in EntryRoles(entries) ==> r.handlers[q] == ctx.handlers[q])
  }

  /** Establishing the next entry keeps the earlier entries' pools in place,
      because the entries name distinct (role, shard) pairs. */
  lemma PlacedStep(r: Context, owner: OwnerName, entries: seq<Establish>, pools: seq<Pool>, n: nat)
    requires DistinctEntries(entries) && n < |entries|
    requires PoolsPlaced(r, owner, entries, pools, n)
    ensures var (r', pool) := EstablishEntry(r, owner, entries[n]);
      PoolsPlaced(r', owner, entries, pools + [pool], n + 1)
  {
    var e := entries[n];
    var (r', pool) := EstablishEntry(r, owner, e);
    var pools' := pools + [pool];
    forall i | 0 <= i < n + 1
      ensures && entries[i].role in r'.handlers
              && RetrieveConnectionPool(r'.handlers[entries[i].role], owner, entries[i].shard) == Some(pools'[i])
              && pools'[i].config == entries[i].config && pools'[i].role == entries[i].role
    {
      if i < n && entries[i].role == e.role {
        assert PoolKey(owner, entries[i].shard) != PoolKey(owner, e.shard);
      }
    }
  }

  /** Establishing an entry leaves alone what `OthersKept` promises. */
  lemma KeptStep(ctx: Context, r: Context, owner: OwnerName, entries: seq<Establish>, n: nat)
    requires n < |entries|
    requires OthersKept(ctx, r, owner, entries)
    ensures OthersKept(ctx, EstablishEntry(r, owner, entries[n]).0, owner, entries)
  {
    assert entries[n].role in EntryRoles(entries);
  }

  lemma EntryRolesStep(entries: seq<Establish>, n: nat)
    requires n < |entries|
    ensures EntryRoles(entries[..n + 1]) == EntryRoles(entries[..n]) + {entries[n].role}
  {
    assert entries[..n + 1][n] == entries[n];
    forall i | 0 <= i < n ensures entries[..n + 1][i] == entries[..n][i] { }
  }

  /** `connects_to`: establishes one pool per entry on the handler of the entry's
      role (registering the handler if needed) and returns the pools in the order
      the entries were given. Nothing else changes: the handlers of other roles,
      the pools of other owners and every handler's prevention flag are as
      before. */
  method ConnectsTo(ctx: Context, owner: OwnerName, entries: seq<Establish>) returns (r: Context, pools: seq<Pool>)
    requires DistinctEntries(entries)
    ensures |pools| == |entries|
    ensures forall i :: 0 <= i < |entries| ==>
              && entries[i].role in r.handlers
              && RetrieveConnectionPool(r.handlers[entries[i].role], owner, entries[i].shard) == Some(pools[i])
              && pools[i].config == entries[i].config && pools[i].role == entries[i].role
    ensures r.stack == ctx.stack && r.settings == ctx.settings
    ensures r.handlers.Keys == ctx.handlers.Keys + EntryRoles(entries)
    ensures forall q :: q in ctx.handlers ==> r.handlers[q].preventWrites == ctx.handlers[q].preventWrites
    ensures forall q :: q in r.handlers && q !in ctx.handlers ==> !r.handlers[q].preventWrites
    ensures forall q, k :: q in ctx.handlers && k in ctx.handlers[q].pools && k.owner != owner ==>
              k in r.handlers[q].pools && r.handlers[q].pools[k] == ctx.handlers[q].pools[k]
    ensures forall q :: q in ctx.handlers && q !in EntryRoles(entries) ==> r.handlers[q] == ctx.handlers[q]
  {
    r := ctx;
    pools := [];
    var n := 0;
    while n < |entries|
      invariant 0 <= n <= |entries|
      invariant r.stack == ctx.stack && r.settings == ctx.settings
      invariant PoolsPlaced(r, owner, entries, pools, n)
      invariant r.handlers.Keys == ctx.handlers.Keys + EntryRoles(entries[..n])
      invariant OthersKept(ctx, r, owner, entries)
    {
      PlacedStep(r, owner, entries, pools, n);
      KeptStep(ctx, r, owner, entries, n);
      EntryRolesStep(entries, n);
      var (r', pool) := EstablishEntry(r, owner, entries[n]);
      r := r';
      pools := pools + [pool];
      n := n + 1;
    }
    assert entries[..n] == entries;
  }
}

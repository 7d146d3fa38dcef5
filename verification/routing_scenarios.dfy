/** Properties of role switching and write prevention that hold for every
    context, owner and statement: prevention reaches every connection, the
    reading role refuses writes, `connected_to` hands back its block's value and
    leaves the context as it found it, and a role without a handler reports the
    missing pool.
 */
module RoutingScenarios {
  import opened Common
  import opened ConnectionHandlers
  import opened ConnectionRouting
  import opened QueryClassifier
  import opened WriteGuard
  import ClassHierarchy

  /** A statement made of leading fillers, a keyword and a tail the keyword
      does not run into. */
  predicate WellFormedStatement(fs: seq<Filler>, word: string, rest: string) {
    && ValidFillers(fs)
    && |word| > 0 && (forall i :: 0 <= i < |word| ==> IsLetter(word[i]))
    && (|rest| == 0 || !IsLetter(rest[0]))
  }

  predicate HasPool(ctx: Context, owner: OwnerName) {
    RetrieveConnectionPool(CurrentHandler(ctx), owner, CurrentShard(ctx)).Some?
  }

  /** The pool whose connection `owner`'s queries use under the current role
      and shard. */
  function PoolInUse(ctx: Context, owner: OwnerName): (p: Pool)
    requires HasPool(ctx, owner)
    ensures PoolKey(owner, CurrentShard(ctx)) in CurrentHandler(ctx).pools
    ensures CurrentHandler(ctx).pools[PoolKey(owner, CurrentShard(ctx))] == p
  {
    RetrieveConnectionPool(CurrentHandler(ctx), owner, CurrentShard(ctx)).value
  }

  /** Inside a context that prevents writes, every owner with a pool has its
      INSERT, UPDATE, DELETE and REPLACE statements refused, with the statement
      quoted after the read-only prefix. */
  lemma WritesRefusedWhilePreventing(ctx: Context, owner: OwnerName, fs: seq<Filler>, word: string, rest: string)
    requires PreventingWrites(ctx) && HasPool(ctx, owner)
    requires WellFormedStatement(fs, word, rest) && Upper(word) in WriteKeywords
    ensures var sql := Render(fs) + (word + rest);
      Execute(ctx, owner, sql).outcome == Raised(ReadOnlyError(ReadOnlyMessagePrefix + sql))
  {
    WriteStatementRejected(fs, word, rest);
  }

  /** Whatever the prevention state, statements led by a read keyword run. */
  lemma ReadsRunWhilePreventing(ctx: Context, owner: OwnerName, fs: seq<Filler>, word: string, rest: string)
    requires HasPool(ctx, owner)
    requires WellFormedStatement(fs, word, rest) && Upper(word) in ReadKeywords
    ensures Execute(ctx, owner, Render(fs) + (word + rest)).outcome == Returned(())
  {
    ReadStatementAllowed(fs, word, rest, ConnectionPreventingWrites(ctx, PoolInUse(ctx, owner)));
  }

  /** Outside prevention, a connection to a primary (non-replica) database runs
      any statement. */
  lemma WritesRunWithoutPrevention(ctx: Context, owner: OwnerName, sql: string)
    requires !PreventingWrites(ctx) && HasPool(ctx, owner) && !PoolInUse(ctx, owner).config.replica
    ensures Execute(ctx, owner, sql).outcome == Returned(())
  {
  }

  /** Class-level `while_preventing_writes`, in either handling mode, refuses
      writes for every owner that has a pool, keeps the role and shard, and is
      seen by `current_preventing_writes`. */
  lemma ClassLevelPreventionReachesEveryOwner(ctx: Context, owner: OwnerName, fs: seq<Filler>, word: string, rest: string)
    requires HasPool(ctx, owner)
    requires WellFormedStatement(fs, word, rest) && Upper(word) in WriteKeywords
    ensures var inner := EnterPrevention(ctx, true);
      var sql := Render(fs) + (word + rest);
      && PreventingWrites(inner)
      && CurrentRole(inner) == CurrentRole(ctx)
      && Execute(inner, owner, sql).outcome == Raised(ReadOnlyError(ReadOnlyMessagePrefix + sql))
  {
    var inner := EnterPrevention(ctx, true);
    assert RetrieveConnectionPool(CurrentHandler(inner), owner, CurrentShard(inner)).Some?;
    WritesRefusedWhilePreventing(inner, owner, fs, word, rest);
  }

  /** Class-level prevention reaches every model through the owner its class
      chain routes it to: with `ActiveRecord::Base` and `ARUnit2Model` each
      holding its own connection, `Bird` (a direct subclass of the base) and
      `Professor` (a subclass of `ARUnit2Model`) use different connections, and
      an INSERT, UPDATE, DELETE or REPLACE through either is refused. */
  lemma PreventionReachesEveryModel(ctx: Context, fs: seq<Filler>, word: string, rest: string)
    requires HasPool(ctx, "ActiveRecord::Base") && HasPool(ctx, "ARUnit2Model")
    requires WellFormedStatement(fs, word, rest) && Upper(word) in WriteKeywords
    ensures var established := map["ActiveRecord::Base" := "ActiveRecord::Base", "ARUnit2Model" := "ARUnit2Model"];
      var bird := OwnerOf(["Bird", "ActiveRecord::Base"], established);
      var professor := OwnerOf(["Professor", "ARUnit2Model", "ActiveRecord::Base"], established);
      var sql := Render(fs) + (word + rest);
      && bird == "ActiveRecord::Base" && professor == "ARUnit2Model" && bird != professor
      && Execute(EnterPrevention(ctx, true), bird, sql).outcome == Raised(ReadOnlyError(ReadOnlyMessagePrefix + sql))
      && Execute(EnterPrevention(ctx, true), professor, sql).outcome == Raised(ReadOnlyError(ReadOnlyMessagePrefix + sql))
  {
    var established := map["ActiveRecord::Base" := "ActiveRecord::Base", "ARUnit2Model" := "ARUnit2Model"];
    var birdChain: ClassHierarchy.ClassChain := ["Bird", "ActiveRecord::Base"];
    var professorChain: ClassHierarchy.ClassChain := ["Professor", "ARUnit2Model", "ActiveRecord::Base"];
    assert birdChain[0] !in established && birdChain[1] in established;
    assert professorChain[0] !in established && professorChain[1] in established;
    assert ClassHierarchy.NoneSetBefore(birdChain, established, 1);
    assert ClassHierarchy.NoneSetBefore(professorChain, established, 1);
    ClassLevelPreventionReachesEveryOwner(ctx, "ActiveRecord::Base", fs, word, rest);
    ClassLevelPreventionReachesEveryOwner(ctx, "ARUnit2Model", fs, word, rest);
  }

  /** Handler-level `while_preventing_writes` under either role refuses writes
      just as the class-level one does. */
  lemma HandlerLevelPreventionRefusesWrites(ctx: Context, owner: OwnerName, fs: seq<Filler>, word: string, rest: string)
    requires HasPool(ctx, owner)
    requires WellFormedStatement(fs, word, rest) && Upper(word) in WriteKeywords
    ensures var inner := EnterHandlerPrevention(ctx, true);
      var sql := Render(fs) + (word + rest);
      && CurrentRole(inner) == CurrentRole(ctx)
      && Execute(inner, owner, sql).outcome == Raised(ReadOnlyError(ReadOnlyMessagePrefix + sql))
  {
    var inner := EnterHandlerPrevention(ctx, true);
    assert TopFrame(inner) == TopFrame(ctx);
    assert RetrieveConnectionPool(CurrentHandler(inner), owner, CurrentShard(inner)).Some?;
    WritesRefusedWhilePreventing(inner, owner, fs, word, rest);
  }

  /** Prevention nests: a `while_preventing_writes(false)` inside a
      `while_preventing_writes` lifts prevention in modern handling, where it is
      a new frame; its end restores the outer frame. */
  lemma NestedPreventionInModernHandling(ctx: Context)
    requires !ctx.settings.legacy && !CurrentHandler(ctx).preventWrites
    requires CurrentRole(ctx) != ctx.settings.readingRole
    ensures var outer := EnterPrevention(ctx, true);
      var inner := EnterPrevention(outer, false);
      && PreventingWrites(outer)
      && !PreventingWrites(inner)
      && inner.stack[..|outer.stack|] == outer.stack
  {
    var outer := EnterPrevention(ctx, true);
    assert CurrentHandler(outer) == CurrentHandler(ctx);
  }

  /** `connected_to(role: reading)` enters the reading role, so that
      `connected_to?(role: reading)` holds on the default shard and
      `connected_to?(role: writing)` does not, prevents writes,
      switches to the reading handler, and refuses an INSERT, UPDATE, DELETE or
      REPLACE for every owner whose pool that handler holds; afterwards the
      frame stack is as before. */
  lemma ReadingRoleRefusesWrites(ctx: Context, owner: OwnerName, fs: seq<Filler>, word: string, rest: string)
    requires ctx.settings.writingRole != ctx.settings.readingRole
    requires WellFormedStatement(fs, word, rest) && Upper(word) in WriteKeywords
    requires RetrieveConnectionPool(LookupHandler(ctx.handlers, ctx.settings.readingRole), owner, CurrentShard(ctx)).Some?
    ensures var sql := Render(fs) + (word + rest);
      var inner := Enter(ctx, Some(ctx.settings.readingRole), None, false);
      && CurrentRole(inner) == ctx.settings.readingRole
      && (IsConnectedToRole(inner, ctx.settings.readingRole) <==> CurrentShard(ctx) == ctx.settings.defaultShard)
      && !IsConnectedToRole(inner, ctx.settings.writingRole)
      && CurrentHandler(inner).pools == LookupHandler(ctx.handlers, ctx.settings.readingRole).pools
      && PreventingWrites(inner)
      && var r := ConnectedTo(ctx, Some(ctx.settings.readingRole), None, false, c => Execute(c, owner, sql));
         && r.outcome == Raised(ReadOnlyError(ReadOnlyMessagePrefix + sql))
         && r.ctx.stack == ctx.stack
  {
    var inner := Enter(ctx, Some(ctx.settings.readingRole), None, false);
    assert HasPool(inner, owner);
    WritesRefusedWhilePreventing(inner, owner, fs, word, rest);
  }

  /** The prevention that naming the reading role brings belongs to the block,
      not to the role: in modern handling a nested shard-only `connected_to`
      keeps the reading role but not the prevention, and in legacy handling a
      handler-level `while_preventing_writes(false)` lifts it. */
  lemma ReadingPreventionIsLifted(ctx: Context, shard: Shard)
    requires !LookupHandler(ctx.handlers, ctx.settings.readingRole).preventWrites
    ensures var reading := Enter(ctx, Some(ctx.settings.readingRole), None, false);
      && PreventingWrites(reading)
      && (!ctx.settings.legacy ==>
            var nested := Enter(reading, None, Some(shard), false);
            CurrentRole(nested) == ctx.settings.readingRole && !PreventingWrites(nested))
      && (ctx.settings.legacy ==>
            var lifted := EnterHandlerPrevention(reading, false);
            CurrentRole(lifted) == ctx.settings.readingRole && !PreventingWrites(lifted))
  {
    var reading := Enter(ctx, Some(ctx.settings.readingRole), None, false);
    if ctx.settings.legacy {
      var lifted := EnterHandlerPrevention(reading, false);
      assert TopFrame(lifted) == TopFrame(reading);
    }
  }

  /** `connected_to(role: writing)` on a primary database allows writes when
      the writing handler itself is not preventing them, and reports itself
      as connected to the writing role and not the reading role. */
  lemma WritingRoleAllowsWrites(ctx: Context, owner: OwnerName, sql: string)
    requires ctx.settings.writingRole != ctx.settings.readingRole
    requires !LookupHandler(ctx.handlers, ctx.settings.writingRole).preventWrites
    requires RetrieveConnectionPool(LookupHandler(ctx.handlers, ctx.settings.writingRole), owner, CurrentShard(ctx)).Some?
    requires !RetrieveConnectionPool(LookupHandler(ctx.handlers, ctx.settings.writingRole), owner, CurrentShard(ctx)).value.config.replica
    ensures var inner := Enter(ctx, Some(ctx.settings.writingRole), None, false);
      && (IsConnectedToRole(inner, ctx.settings.writingRole) <==> CurrentShard(ctx) == ctx.settings.defaultShard)
      && !IsConnectedToRole(inner, ctx.settings.readingRole)
      && !PreventingWrites(inner)
      && Execute(inner, owner, sql).outcome == Returned(())
  {
    var inner := Enter(ctx, Some(ctx.settings.writingRole), None, false);
    assert HasPool(inner, owner);
    assert !PoolInUse(inner, owner).config.replica;
    WritesRunWithoutPrevention(inner, owner, sql);
  }

  /** `connected_to` hands back the value its block computed from the entered
      context (here the role in effect inside it) and, for a block that leaves
      the context alone, restores everything: frames, settings and, in legacy
      handling, the flag of a handler that already existed. */
  lemma ConnectedToRestoresContext(ctx: Context, role: Role, preventWrites: bool)
    requires ctx.settings.legacy ==> role in ctx.handlers
    ensures ConnectedTo(ctx, Some(role), None, preventWrites, c => Step(c, Returned(CurrentRole(c))))
            == Step(ctx, Returned(role))
  {
    var inner := Enter(ctx, Some(role), None, preventWrites);
    var after := Leave(ctx, CurrentRole(inner), inner);
    if ctx.settings.legacy {
      assert inner.handlers[role].pools == ctx.handlers[role].pools;
      assert after.handlers[role] == ctx.handlers[role];
      assert after.handlers == ctx.handlers;
    }
  }

  /** The handler a `connected_to(role:)` block sees has the pools registered
      for that role, and after the block the current handler is again the one
      of the role in effect before, with unchanged pools. */
  lemma BlockSeesRoleHandler(ctx: Context, role: Role)
    requires role != CurrentRole(ctx)
    ensures var r := ConnectedTo(ctx, Some(role), None, false, c => Step(c, Returned(CurrentHandler(c).pools)));
      && r.outcome == Returned(LookupHandler(ctx.handlers, role).pools)
      && CurrentRole(r.ctx) == CurrentRole(ctx)
      && CurrentHandler(r.ctx).pools == CurrentHandler(ctx).pools
  {
    var inner := Enter(ctx, Some(role), None, false);
    var after := Leave(ctx, CurrentRole(inner), inner);
    assert TopFrame(after) == TopFrame(ctx);
    if ctx.settings.legacy {
      assert CurrentHandler(inner).pools == LookupHandler(ctx.handlers, role).pools;
      assert CurrentRole(ctx) != role;
      if CurrentRole(ctx) in ctx.handlers {
        assert after.handlers[CurrentRole(ctx)] == ctx.handlers[CurrentRole(ctx)];
      }
    }
  }

  /** A role without a handler, or whose handler holds no pool for the owner,
      raises `ConnectionNotEstablished` naming the owner and the role. */
  lemma MissingPoolNamesOwnerAndRole(ctx: Context, owner: OwnerName, role: Role, sql: string)
    requires RetrieveConnectionPool(LookupHandler(ctx.handlers, role), owner, CurrentShard(ctx)).None?
    ensures var r := ConnectedTo(ctx, Some(role), None, false, c => Execute(c, owner, sql));
      r.outcome == Raised(ConnectionNotEstablished(
        "No connection pool for '" + owner + "' found for the '" + role + "' role."))
  {
    var inner := Enter(ctx, Some(role), None, false);
    assert !HasPool(inner, owner);
  }

  /** Clearing the active connections of one role's handler leaves every other
      handler's checked-out connections in place: after a connection is
      checked out of both handlers, clearing one leaves the other active and
      untouched, and clearing that one too leaves none active. */
  lemma ClearIsPerHandler(handlers: map<Role, Handler>, cleared: Role, other: Role, owner: OwnerName, shard: Shard)
    requires cleared in handlers && other in handlers && cleared != other
    requires PoolKey(owner, shard) in handlers[cleared].pools && PoolKey(owner, shard) in handlers[other].pools
    ensures var used := handlers[cleared := RetrieveConnection(handlers[cleared], owner, cleared, shard).value]
                                [other := RetrieveConnection(handlers[other], owner, other, shard).value];
      var after := used[cleared := ClearActiveConnections(used[cleared])];
      && ActiveConnections(used[cleared]) && ActiveConnections(used[other])
      && !ActiveConnections(after[cleared])
      && after[other] == used[other] && ActiveConnections(after[other])
      && !ActiveConnections(ClearActiveConnections(after[other]))
  {
  }

  /** Handler-level prevention on the current handler and class-level
      prevention decide every statement of every owner with a pool the same
      way: as the guard does while preventing. */
  lemma HandlerLevelMatchesClassLevel(ctx: Context, owner: OwnerName, sql: string)
    requires HasPool(ctx, owner)
    ensures Execute(EnterHandlerPrevention(ctx, true), owner, sql).outcome
            == Execute(EnterPrevention(ctx, true), owner, sql).outcome
    ensures Execute(EnterPrevention(ctx, true), owner, sql).outcome == CheckQuery(sql, true)
  {
    var byHandler := EnterHandlerPrevention(ctx, true);
    var byClass := EnterPrevention(ctx, true);
    assert TopFrame(byHandler) == TopFrame(ctx);
    assert HasPool(byHandler, owner);
    assert HasPool(byClass, owner);
  }

  /** The role names are settings: once the reading role is renamed,
      `connected_to` the new name prevents writes, and the writing role and
      the handling mode are unchanged. */
  lemma RenamedReadingRolePrevents(ctx: Context, role: Role)
    ensures var renamed := ctx.(settings := SetReadingRole(ctx.settings, role));
      && renamed.settings.readingRole == role
      && renamed.settings.writingRole == ctx.settings.writingRole
      && PreventingWrites(Enter(renamed, Some(role), None, false))
  {
  }
}

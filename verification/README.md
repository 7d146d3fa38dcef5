# Active Record connection routing, write prevention, strict loading, `with` and bound-value quoting

This project is a behavioural model of the parts of Active Record that six test files pin down.
The model is written in Dafny, and every property below is proved.

- **Write-query classifier and guard** (`QueryClassifier`, `WriteGuard`, `MysqlStatements`).
  - A statement is split into leading filler and the rest. Filler is white space, `/* … */` comments and opening parentheses.
  - The first run of letters, upper-cased, is the leading keyword. It is checked against the read list: `SELECT WITH SHOW DESCRIBE DESC SET EXPLAIN USE RELEASE SAVEPOINT ROLLBACK BEGIN COMMIT`.
  - While writes are prevented, any other keyword is refused with `ActiveRecord::ReadOnlyError`. Its message is `"Write query attempted while in readonly mode: "` followed by the statement.
- **Connection routing** (`ConnectionHandlers`, `ConnectionRouting`, `RoutingScenarios`).
  - A connection handler maps an owner (the connection specification name) and a shard to a pool.
  - A registry maps each role to its handler.
  - `connected_to` pushes a `{role, shard, prevent_writes}` frame. The block runs in the entered context, and on every exit path the frame stack and, in legacy handling, the handler flag are put back.
  - `current_role`, `connected_to?` and `current_preventing_writes` read the context.
  - Naming the reading role in `connected_to` prevents writes. A nested shard-only `connected_to` (modern handling), or a handler-level `while_preventing_writes(false)` inside the block (legacy handling), lifts that prevention again.
  - Class-level `while_preventing_writes` and the legacy handler-level `connection_handler.while_preventing_writes` both reach every connection of the current handler.
  - `retrieve_connection_pool`, `retrieve_connection`, `active_connections?`, `clear_active_connections!`, `connects_to` and the writing/reading role settings are modelled too.
- **Strict loading** (`ClassHierarchy`, `StrictLoading`).
  - Strictness comes from `strict_loading!`, from a `strict_loading` relation, or from `strict_loading_by_default` inherited down the class chain.
  - A lazy association read raises `StrictLoadingViolationError` for a strict owner or a `strict_loading: true` association.
  - Included associations never raise.
  - Preloaded children inherit strictness from the relation, from the association scope, or from their own class default.
- **`Relation#with`** (`WithClause`).
  - The argument shapes that build common table expressions are: a hash of name to relation, Arel node or SQL string; an `As` node; an array of `As` nodes.
  - All other shapes raise `ArgumentError`.
  - Successive calls accumulate their CTEs in call order, wherever `from` appears.
- **`quote_bound_value`** (`BoundQuoting`).
  - Integers are quoted as their decimal text.
  - Exact decimals are quoted as their `BigDecimal#to_s` text, with trailing zeros dropped and at least one fractional digit.
  - Booleans are quoted as `'1'` and `'0'`.

Side effects are modelled explicitly:

- Thread-local state becomes an explicit `Context` value.
- A block becomes a function from the context it starts in to a `Step`: the context it ends in plus what it returned or raised.
- The database rows an association read would fetch are a parameter (`Db`).
- Errors are values of `Common.Error` inside an `Outcome` or a `Result`.

## Model

| member | source | states |
|---|---|---|
| `QueryClassifier.LeadingFillers` | activerecord/test/cases/adapters/mysql2/mysql2_adapter_prevent_writes_test.rb:83-89 | The statement splits into well-formed fillers (blanks, closed comments, opening parentheses) and a rest that does not start with one, and the two concatenate back to the statement |
| `QueryClassifier.FirstWord` | activerecord/test/cases/adapters/mysql2/mysql2_adapter_prevent_writes_test.rb:13-96 | The leading keyword is the maximal run of letters the statement starts with |
| `QueryClassifier.CommentClose` | activerecord/test/cases/adapters/mysql2/mysql2_adapter_prevent_writes_test.rb:83-89 | Finds the first `*/` at or after the start, or reports that there is none |
| `QueryClassifier.SkipsRenderedFillers` | activerecord/test/cases/adapters/mysql2/mysql2_adapter_prevent_writes_test.rb:83-89 | Any sequence of comments, blanks and parentheses in front of a text is skipped completely |
| `QueryClassifier.ClassifyAfterFillers` | activerecord/test/cases/adapters/mysql2/mysql2_adapter_prevent_writes_test.rb:83-89 | Leading comments, white space and parentheses never change a statement's classification |
| `QueryClassifier.FirstWordOf` | activerecord/test/cases/adapters/mysql2/mysql2_adapter_prevent_writes_test.rb:13-96 | A letter run followed by a non-letter is read back as the keyword |
| `QueryClassifier.ClassifyDecomposed` | activerecord/test/cases/adapters/mysql2/mysql2_adapter_prevent_writes_test.rb:13-96 | For every statement made of fillers, a keyword and a tail, the classification is the keyword's kind |
| `QueryClassifier.FillersOnlyAreReads` | activerecord/test/cases/base_prevent_writes_test.rb:59-66 | A statement with nothing but filler is exempt |
| `QueryClassifier.CaseInsensitive` | activerecord/test/cases/adapters/mysql2/mysql2_adapter_prevent_writes_test.rb:13-96 | The keyword comparison ignores letter case |
| `QueryClassifier.ReadKeywordIsWord` | activerecord/test/cases/adapters/mysql2/mysql2_adapter_prevent_writes_test.rb:51-96 | Every read keyword is a nonempty upper-case word, so it is recognised as a keyword |
| `WriteGuard.CheckQuery` | activerecord/test/cases/base_prevent_writes_test.rb:9-41 | Raises exactly when writes are prevented and the statement is a write, with the read-only prefix followed by the statement as the message |
| `WriteGuard.WriteKeywordsAreNotReads` | activerecord/test/cases/adapters/mysql2/mysql2_adapter_prevent_writes_test.rb:13-49 | INSERT, UPDATE, DELETE and REPLACE are write keywords |
| `WriteGuard.WriteStatementRejected` | activerecord/test/cases/base_prevent_writes_test.rb:9-41 | Under prevention, every INSERT/UPDATE/DELETE/REPLACE statement, its keyword in any case, is refused whatever filler precedes it, and the message is the prefix followed by the statement |
| `WriteGuard.ReadStatementAllowed` | activerecord/test/cases/base_prevent_writes_test.rb:43-66 | A statement led by a read keyword runs whether or not writes are prevented |
| `MysqlStatements.Statement` | activerecord/test/cases/adapters/mysql2/mysql2_adapter_prevent_writes_test.rb:13-96 | The test statements are a keyword, one blank and a tail |
| `MysqlStatements.RefusedAfterBlank` | activerecord/test/cases/adapters/mysql2/mysql2_adapter_prevent_writes_test.rb:13-49 | A write keyword followed by a blank and any tail is refused |
| `MysqlStatements.RunsAfterBlank` | activerecord/test/cases/adapters/mysql2/mysql2_adapter_prevent_writes_test.rb:51-96 | A read keyword followed by a blank and any tail runs |
| `MysqlStatements.AdapterWritesRefused` | activerecord/test/cases/adapters/mysql2/mysql2_adapter_prevent_writes_test.rb:13-49 | The INSERT, UPDATE, DELETE and REPLACE statements of the tests are refused with the statement in the message |
| `MysqlStatements.AdapterReadsRun` | activerecord/test/cases/adapters/mysql2/mysql2_adapter_prevent_writes_test.rb:51-96 | The SELECT, SHOW, SET, DESCRIBE, DESC and USE statements of the tests run while preventing |
| `MysqlStatements.AnnotationRendering` | activerecord/test/cases/adapters/mysql2/mysql2_adapter_prevent_writes_test.rb:83-89 | The prefix `/*action:index*/(\n( ` is exactly a comment, two parentheses and two blanks |
| `MysqlStatements.AnnotatedSelectRuns` | activerecord/test/cases/adapters/mysql2/mysql2_adapter_prevent_writes_test.rb:83-89 | The annotated, parenthesised SELECT runs while preventing |
| `MysqlStatements.ExplainAndTransactionsRun` | activerecord/test/cases/base_prevent_writes_test.rb:51-66 | An EXPLAIN statement and the bare `BEGIN` and `COMMIT` of an empty transaction run while preventing |
| `MysqlStatements.BareKeywordRuns` | activerecord/test/cases/base_prevent_writes_test.rb:60-66 | A read keyword with nothing after it runs while preventing |
| `ConnectionHandlers.RetrieveConnectionPool` | activerecord/test/cases/connection_adapters/legacy_connection_handlers_multi_db_test.rb:407-415 | Finds a pool exactly for a registered owner and shard, gives nothing otherwise, and never fails |
| `ConnectionHandlers.ConnectionPools` | activerecord/test/cases/connection_adapters/legacy_connection_handlers_multi_db_test.rb:378-381 | The handler's pools are exactly the registered ones |
| `ConnectionHandlers.EstablishConnection` | activerecord/test/cases/connection_adapters/legacy_connection_handlers_multi_db_test.rb:20-27 | The new pool is retrievable for its owner and shard, carries the configuration, is not yet active, and no other pool changes |
| `ConnectionHandlers.RetrieveConnection` | activerecord/test/cases/connection_adapters/legacy_connection_handlers_multi_db_test.rb:383-405 | Checks out a connection, making the handler active, and changes only the owner's pool; raises `ConnectionNotEstablished` with the owner and role exactly when there is no pool |
| `ConnectionHandlers.ClearActiveConnections` | activerecord/test/cases/connection_adapters/legacy_connection_handlers_multi_db_test.rb:398-404 | Afterwards the handler has no active connection, with the same pools and flag |
| `ConnectionHandlers.FreshHandlerScenario` | activerecord/test/cases/connection_adapters/legacy_connection_handlers_multi_db_test.rb:378-415 | A handler with one established pool lists only that pool, is inactive, finds it for its owner and nothing for another owner |
| `ConnectionHandlers.CheckoutThenClear` | activerecord/test/cases/connection_adapters/legacy_connection_handlers_multi_db_test.rb:388-405 | Checkout then clear gives back the inactive handler unchanged |
| `ConnectionRouting.DefaultSettings` | activerecord/test/cases/connection_adapters/legacy_connection_handlers_multi_db_test.rb:460-463 | The default writing and reading roles are `writing` and `reading` |
| `ConnectionRouting.SetWritingRole` | activerecord/test/cases/connection_adapters/legacy_connection_handlers_multi_db_test.rb:465-476 | The writing role reads back as set, and the other settings are unchanged |
| `ConnectionRouting.SetReadingRole` | activerecord/test/cases/connection_adapters/legacy_connection_handlers_multi_db_test.rb:465-476 | The reading role reads back as set, and the other settings are unchanged |
| `ConnectionRouting.EnsureHandler` | activerecord/test/cases/connection_adapters/legacy_connection_handlers_multi_db_test.rb:450-458 | Registers an empty handler for a role only if it has none; existing handlers are untouched |
| `ConnectionRouting.SetHandlerPrevention` | activerecord/test/cases/base_prevent_writes_test.rb:172-192 | Sets one handler's prevention flag; its pools and every other handler are unchanged |
| `ConnectionRouting.Enter` | activerecord/test/cases/connection_adapters/legacy_connection_handlers_multi_db_test.rb:177-193 | Inside the block, role and shard are the given ones or the inherited ones, one frame is pushed, the handler is the role's, and writes are prevented exactly when asked or when the reading role is named |
| `ConnectionRouting.Leave` | activerecord/test/cases/connection_adapters/legacy_connection_handlers_multi_db_test.rb:424-429 | After the block the frame stack is the one before it, and in legacy handling the role handler's flag is restored |
| `ConnectionRouting.ConnectedTo` | activerecord/test/cases/connection_adapters/legacy_connection_handlers_multi_db_test.rb:263-268 | Raises `ArgumentError` with "must provide a `shard` and/or `role`." when neither is given; otherwise returns what the block returned or raised and restores the frame stack |
| `ConnectionRouting.EnterPrevention` | activerecord/test/cases/base_prevent_writes_test.rb:91-95 | Inside `while_preventing_writes` the role, shard and pools are unchanged and `current_preventing_writes` holds |
| `ConnectionRouting.WhilePreventingWrites` | activerecord/test/cases/base_prevent_writes_test.rb:69-95 | Returns the block's outcome; restores the frame stack in modern handling and the handler flag in legacy handling |
| `ConnectionRouting.EnterHandlerPrevention` | activerecord/test/cases/base_prevent_writes_test.rb:222-226 | Handler-level prevention sets the current handler's flag, keeps its pools and the frames, and makes `current_preventing_writes` hold |
| `ConnectionRouting.HandlerWhilePreventingWrites` | activerecord/test/cases/base_prevent_writes_test.rb:172-192 | Returns the block's outcome and restores the handler's previous flag |
| `ConnectionRouting.Execute` | activerecord/test/cases/connection_adapters/legacy_connection_handlers_multi_db_test.rb:450-458 | Raises `ConnectionNotEstablished` naming the owner and role when there is no pool; otherwise the guard decides with the connection's prevention state and a connection is active afterwards |
| `ConnectionRouting.OwnerOf` | activerecord/test/cases/base_prevent_writes_test.rb:69-89 | A model uses its own established connection, else that of the nearest ancestor that established one, else `ActiveRecord::Base` |
| `ConnectionRouting.ConnectsTo` | activerecord/test/cases/connection_adapters/legacy_connection_handlers_multi_db_test.rb:356-371 | Returns one pool per role entry, in the given order, each retrievable from its role's handler with its configuration; registers exactly the entries' roles, and leaves existing flags, other owners' pools and the handlers of unnamed roles unchanged |
| `ConnectionRouting.EstablishEntry` | activerecord/test/cases/connection_adapters/legacy_connection_handlers_multi_db_test.rb:356-371 | One entry's pool is retrievable from its role handler with its configuration; other handlers, that handler's other pools and its flag are unchanged |
| `RoutingScenarios.PoolInUse` | activerecord/test/cases/base_prevent_writes_test.rb:69-89 | The pool used is the one registered under the owner and current shard in the current handler |
| `RoutingScenarios.WritesRefusedWhilePreventing` | activerecord/test/cases/base_prevent_writes_test.rb:9-41 | Under prevention every owner's write statements are refused with the exact message |
| `RoutingScenarios.ReadsRunWhilePreventing` | activerecord/test/cases/base_prevent_writes_test.rb:43-57 | Reads run whatever the prevention state |
| `RoutingScenarios.WritesRunWithoutPrevention` | activerecord/test/cases/adapters/mysql2/mysql2_adapter_prevent_writes_test.rb:21-39 | Outside prevention, on a primary database, any statement runs |
| `RoutingScenarios.ClassLevelPreventionReachesEveryOwner` | activerecord/test/cases/base_prevent_writes_test.rb:69-95 | Class-level prevention keeps the role, makes `current_preventing_writes` true, and refuses writes for every owner with a pool, including a second database |
| `RoutingScenarios.PreventionReachesEveryModel` | activerecord/test/cases/base_prevent_writes_test.rb:69-89 | `Bird` routes to the `ActiveRecord::Base` connection and `Professor` to `ARUnit2Model`'s, through their class chains, and under class-level prevention a write through either is refused |
| `RoutingScenarios.HandlerLevelPreventionRefusesWrites` | activerecord/test/cases/base_prevent_writes_test.rb:194-220 | Handler-level prevention under any role keeps the role and refuses writes |
| `RoutingScenarios.HandlerLevelMatchesClassLevel` | activerecord/test/cases/adapters/mysql2/mysql2_adapter_prevent_writes_test.rb:119-202 | Handler-level and class-level prevention decide every statement of every owner alike |
| `RoutingScenarios.NestedPreventionInModernHandling` | activerecord/test/cases/base_prevent_writes_test.rb:91-95 | An inner `while_preventing_writes(false)` lifts prevention and keeps the outer frame below it |
| `RoutingScenarios.ReadingRoleRefusesWrites` | activerecord/test/cases/connection_adapters/legacy_connection_handlers_multi_db_test.rb:177-184 | Under the reading role: `current_role` is reading, `connected_to?(role: reading)` holds exactly on the default shard, `connected_to?(role: writing)` does not hold, the handler is the reading one, writes are refused, and the stack is restored afterwards |
| `RoutingScenarios.ReadingPreventionIsLifted` | activerecord/test/cases/connection_adapters/legacy_connection_handlers_multi_db_test.rb:177-184 | Naming the reading role prevents writes; a nested shard-only `connected_to` (modern) keeps the role but lifts prevention, as does a handler-level `while_preventing_writes(false)` (legacy) |
| `RoutingScenarios.WritingRoleAllowsWrites` | activerecord/test/cases/connection_adapters/legacy_connection_handlers_multi_db_test.rb:186-193 | Under the writing role: `connected_to?(role: writing)` holds exactly on the default shard and `connected_to?(role: reading)` does not, writes are not prevented, and a write runs |
| `RoutingScenarios.ConnectedToRestoresContext` | activerecord/test/cases/connection_adapters/legacy_connection_handlers_multi_db_test.rb:424-429 | `connected_to` returns the block's value, and the context afterwards equals the context before |
| `RoutingScenarios.BlockSeesRoleHandler` | activerecord/test/cases/connection_adapters/legacy_connection_handlers_multi_db_test.rb:417-430 | The block sees the role's handler; afterwards the role and handler are again the previous ones |
| `RoutingScenarios.MissingPoolNamesOwnerAndRole` | activerecord/test/cases/connection_adapters/legacy_connection_handlers_multi_db_test.rb:450-458 | A role without a pool for the owner raises "No connection pool for '<owner>' found for the '<role>' role." |
| `RoutingScenarios.ClearIsPerHandler` | activerecord/test/cases/connection_adapters/legacy_connection_handlers_multi_db_test.rb:388-402 | After checking a connection out of two role handlers, clearing one leaves the other untouched and still active, and clearing the other then leaves neither active |
| `RoutingScenarios.RenamedReadingRolePrevents` | activerecord/test/cases/connection_adapters/legacy_connection_handlers_multi_db_test.rb:465-476 | After renaming the reading role, `connected_to` the new name prevents writes |
| `ClassHierarchy.Inherited` | activerecord/test/cases/strict_loading_test.rb:38-67 | A class reads its own setting, else the nearest ancestor's, else the fallback |
| `ClassHierarchy.OwnSettingOverrides` | activerecord/test/cases/strict_loading_test.rb:59-65 | A subclass's own setting wins over its ancestors' |
| `ClassHierarchy.UnsetSubclassInherits` | activerecord/test/cases/strict_loading_test.rb:53-64 | A subclass that sets nothing reads what its parent reads |
| `StrictLoading.StrictByDefault` | activerecord/test/cases/strict_loading_test.rb:38-67 | A class's own `strict_loading_by_default` decides, and with nothing set anywhere the default is false |
| `StrictLoading.Instantiate` | activerecord/test/cases/strict_loading_test.rb:27-36 | A loaded record is strict exactly when its relation is `strict_loading` or its class is strict by default, and has nothing loaded |
| `StrictLoading.LoadTargets` | activerecord/test/cases/strict_loading_test.rb:89-156 | One target per row, strict exactly when the relation or association scope is strict or the target class is strict by default |
| `StrictLoading.LoadRecord` | activerecord/test/cases/strict_loading_test.rb:89-156 | A record of the relation has exactly the included associations loaded, with their strictness |
| `StrictLoading.LoadRelation` | activerecord/test/cases/strict_loading_test.rb:27-30 | One record per id, in order |
| `StrictLoading.MarkStrict` | activerecord/test/cases/strict_loading_test.rb:15-25 | After `strict_loading!` the record is strict and nothing else changes |
| `StrictLoading.ReadAssociation` | activerecord/test/cases/strict_loading_test.rb:69-87 | Raises `StrictLoadingViolationError`, naming the class and the association, exactly for an unloaded association on a strict owner or a strict association; otherwise loads and caches the targets |
| `StrictLoading.WithStrictLoadingByDefault` | activerecord/test/cases/strict_loading_test.rb:363-371 | The body runs with the class strict by default; afterwards the class, each of its descendants and every class outside its hierarchy reads what it read before |
| `StrictLoading.RelationRecordsStrictness` | activerecord/test/cases/strict_loading_test.rb:27-36 | Every record of a relation is strict exactly when the relation or the class default says so |
| `StrictLoading.PreloadedTargetsStrictness` | activerecord/test/cases/strict_loading_test.rb:89-156 | Preloaded children are strict exactly when the parent's relation, the association scope or the child's class default is strict |
| `StrictLoading.IncludedAssociationNeverRaises` | activerecord/test/cases/strict_loading_test.rb:202-220 | An included association never raises and yields all its rows |
| `StrictLoading.LazyReadRaisesExactlyWhenStrict` | activerecord/test/cases/strict_loading_test.rb:158-200 | A lazy read raises exactly when the owner is strict or the association is declared strict |
| `StrictLoading.MarkStrictForbidsLazyLoading` | activerecord/test/cases/strict_loading_test.rb:15-25 | After `strict_loading!`, reading an unloaded association raises, naming the class and association |
| `StrictLoading.LoadedAssociationIsCached` | activerecord/test/cases/strict_loading_test.rb:202-220 | A loaded association reads again with the same targets, even after the owner is made strict |
| `StrictLoading.RestoringDefaultKeepsReadings` | activerecord/test/cases/strict_loading_test.rb:363-371 | Writing back the read value leaves what the class and its descendants read unchanged |
| `StrictLoading.RestoringDefaultKeepsUnrelatedReadings` | activerecord/test/cases/strict_loading_test.rb:363-371 | Writing back the read value leaves classes outside the hierarchy unchanged |
| `StrictLoading.RestoringKeepsEveryReading` | activerecord/test/cases/strict_loading_test.rb:363-371 | Writing back the read value leaves the readings of every chain through the class and of every chain outside it unchanged |
| `StrictLoading.DefaultInheritanceScenario` | activerecord/test/cases/strict_loading_test.rb:38-67 | With the base strict by default, an unset subclass's records are strict and an overriding subclass's follow its own setting |
| `WithClause.With` | activerecord/test/cases/relation/with_test.rb:121-124 | Raises `ArgumentError` exactly when called with no arguments; otherwise appends the arguments after the earlier ones and keeps `from` |
| `WithClause.From` | activerecord/test/cases/relation/with_test.rb:64-71 | Replaces the FROM source and leaves the CTEs alone |
| `WithClause.BuildValue` | activerecord/test/cases/relation/with_test.rb:43-53 | A hash value builds a CTE exactly when it is a relation, an Arel node or a string (a string becomes a grouping) |
| `WithClause.BuildHash` | activerecord/test/cases/relation/with_test.rb:43-53 | A hash builds one CTE per entry, named by the key, in order |
| `WithClause.BuildArg` | activerecord/test/cases/relation/with_test.rb:12-53 | An accepted argument builds one CTE per name it defines |
| `WithClause.BuildHashAccepts` | activerecord/test/cases/relation/with_test.rb:126-129 | A hash builds exactly when every value is supported |
| `WithClause.BuildArgAccepts` | activerecord/test/cases/relation/with_test.rb:121-129 | An argument builds exactly when it has an accepted shape |
| `WithClause.BuildWithAccepts` | activerecord/test/cases/relation/with_test.rb:121-129 | The WITH clause builds exactly when every accumulated argument is accepted |
| `WithClause.CombineAllConcat` | activerecord/test/cases/relation/with_test.rb:55-71 | Combining two batches of per-argument builds gives the first batch's CTEs followed by the second's |
| `WithClause.BuildWithConcat` | activerecord/test/cases/relation/with_test.rb:55-62 | CTEs of two batches are the first batch's followed by the second's |
| `WithClause.SuccessiveWithsAccumulate` | activerecord/test/cases/relation/with_test.rb:55-62 | Two `with` calls give the CTEs of both, in call order |
| `WithClause.FromCommutesWithWith` | activerecord/test/cases/relation/with_test.rb:64-71 | Where `from` is called in the chain does not matter |
| `WithClause.RejectedShapes` | activerecord/test/cases/relation/with_test.rb:121-129 | No argument, an array holding a hash, a nil value and an array value are rejected |
| `WithClause.HashEntryFirst` | activerecord/test/cases/relation/with_test.rb:43-53 | A hash's first entry contributes the first CTE |
| `WithClause.AcceptedShapes` | activerecord/test/cases/relation/with_test.rb:12-53 | A hash of a relation, an `As` node, an array of `As` nodes and a mixed hash build the expected CTEs |
| `BoundQuoting.NatToString` | activerecord/test/cases/adapters/mysql2/quoting_test.rb:11-13 | An integer's digits, never with a leading zero |
| `BoundQuoting.IntToString` | activerecord/test/cases/adapters/mysql2/quoting_test.rb:11-13 | The text starts with a minus exactly for negative numbers, followed by digits |
| `BoundQuoting.Digits` | activerecord/test/cases/adapters/mysql2/quoting_test.rb:15-17 | Exactly `k` digits that read back as the fraction |
| `BoundQuoting.StripTrailingZeros` | activerecord/test/cases/adapters/mysql2/quoting_test.rb:15-17 | A prefix followed only by zeros, ending in a non-zero |
| `BoundQuoting.FractionText` | activerecord/test/cases/adapters/mysql2/quoting_test.rb:15-17 | Nonempty fractional digits without trailing zeros, except a lone `0` |
| `BoundQuoting.SplitUnits` | activerecord/test/cases/adapters/mysql2/quoting_test.rb:15-17 | The integer part and the remainder recompose the number of units |
| `BoundQuoting.DecimalToString` | activerecord/test/cases/adapters/mysql2/quoting_test.rb:15-17 | A nonempty text that starts with a minus exactly for negative decimals |
| `BoundQuoting.Quote` | activerecord/test/cases/adapters/mysql2/quoting_test.rb:11-25 | The text between two single quotes |
| `BoundQuoting.QuoteBoundValue` | activerecord/test/cases/adapters/mysql2/quoting_test.rb:11-25 | Always single-quoted; booleans become `'1'` and `'0'` |
| `BoundQuoting.ParseNatToString` | activerecord/test/cases/adapters/mysql2/quoting_test.rb:11-13 | Reading an integer's digits gives it back |
| `BoundQuoting.IntRoundTrip` | activerecord/test/cases/adapters/mysql2/quoting_test.rb:11-13 | Reading the text of any integer gives it back |
| `BoundQuoting.IntToStringInjective` | activerecord/test/cases/adapters/mysql2/quoting_test.rb:11-13 | Different integers are quoted differently |
| `BoundQuoting.StripScales` | activerecord/test/cases/adapters/mysql2/quoting_test.rb:15-17 | Dropping trailing zeros divides the value by a power of ten |
| `BoundQuoting.FractionTextValue` | activerecord/test/cases/adapters/mysql2/quoting_test.rb:15-17 | The fractional text denotes the same fraction as the remainder |
| `BoundQuoting.DecimalTextDenotesValue` | activerecord/test/cases/adapters/mysql2/quoting_test.rb:15-17 | A decimal's text is sign, integer part, point and fraction, and denotes exactly the decimal's value |
| `BoundQuoting.QuotedInteger` | activerecord/test/cases/adapters/mysql2/quoting_test.rb:11-13 | 42 is quoted `'42'` |
| `BoundQuoting.QuotedDecimal` | activerecord/test/cases/adapters/mysql2/quoting_test.rb:15-17 | 4.2 is quoted `'4.2'`, whether held at scale 1 or 2 |
| `BoundQuoting.QuotedBooleans` | activerecord/test/cases/adapters/mysql2/quoting_test.rb:19-25 | true and false are quoted `'1'` and `'0'` |
| `BoundQuoting.QuotedIntegerRoundTrip` | activerecord/test/cases/adapters/mysql2/quoting_test.rb:11-13 | Unquoting a quoted integer and reading it gives the integer back |

## Left out

- Threads, fibers and per-thread isolation of the routing context: the context is a single explicit value.
- Executing SQL. Rows returned, record identity, recursive CTEs, `count` and query counting are database I/O. The rows an association read fetches are a parameter.
- Resolving configurations from YAML, `ENV`, `DATABASE_URL` and file paths. A configuration is an opaque `DbConfig` carrying its name, database and replica flag.
- Pool checkout queues, timeouts and physical sessions. A pool only records whether it has a connection checked out.
- Leading `WITH`: it is always classified as a read. The refinement that looks at the outermost terminal clause (`WITH … INSERT` as a write) is not modelled.
- Quoting of strings and other values, and escaping. Only integers, exact decimals and booleans are quoted. Floating-point values are not modelled; a decimal is an exact (unscaled, scale) pair.
- The exact messages of `ArgumentError` for unsupported `with` shapes are not modelled, because they embed Ruby's `inspect` output. The problem kind is modelled instead. The no-argument message is exact.
- `includes` of an association name the model does not declare (`AssociationNotFoundError`): such names are ignored.
- Legacy topology. The tests register one handler per role even in legacy handling (`handlers[:writing]`, `handlers[:reading]`), and the model follows them. Modern handling is modelled with the same role-to-handler map; the single handler with role-keyed pools that modern Rails uses is an equivalent currying of that map and is not modelled separately.
- Exceptions inside a `strict_loading_by_default` block: the body is a function of the defaults it runs under and cannot change them, so the restore on every exit path is modelled as writing back the value read before.
- The memcached cache store, Action Mailbox inbound emails and the Action Text content helper: they depend on foreign libraries, network and storage services, and view rendering.

# rszero, verified models

A Dafny model of the protocols and algorithms of rszero, a microservice framework, and proofs of
what they promise. Each component is one or a few modules:

| files | component |
|---|---|
| `ApiLexer`, `ApiLayout`, `ApiParser` | the `.api` language: lexer, layouts of tokens, parser |
| `ApiRoundTrip`, `ApiDeclarations`, `ApiNewlines`, `ApiErrors`, `ApiGrammar` | what is proved of the parser: round trip from characters to syntax tree, declarations in any order or left out, blank lines, foreign tokens and errors, the grammar it accepts |
| `SingleFlight`, `SingleFlightQueue` | request coalescing: any number of tasks over a shared map, a lock and broadcast channels; then with the waiting queue of the lock |
| `Saga`, `PersistentSaga` | forward steps, reverse compensation with retries, and the journal |
| `Outbox` | the transactional message table, with publishers and sweepers interleaved |
| `Breaker` | the circuit breaker over a sliding window, with calls in flight across transitions |
| `RedisLock` | the distributed lock: compare-and-delete and compare-and-expire on one key |
| `Sharding`, `Decimals` | consistent-hash routing on the 2^32 ring; decimal numbers |
| `CronFields`, `Cron` | cron expressions, the search for the next minute, the firing loop |
| `MemCache` | the in-memory cache with expiry and eviction |
| `RateLimit` | the per-tenant request window |

Operations that change state are classes and methods proved against specification functions;
protocols with several actors are steps on a state, and the theorems range over every sequence of
enabled steps. Clocks, pushes, table updates, persisters and tasks are parameters, so every
pattern of failures, delays and lost answers is covered. `dafny verify dfyconfig.toml` checks
everything.

Where the code does something else than its documentation says, the model follows the code:

- `get /users returns (ListUserResp)`, documented in `rszero/src/api/mod.rs:29`, is accepted with
  the path `/usersreturns` and the request type `ListUserResp` (`ReturnsIsAbsorbed`). No text at all
  gives a route with a response but no request type (`ParsedIsWellFormed`).
- A path with two slashes next to each other is cut there, since they start a comment
  (`PathVerbatimIff`).
- A single-flight caller that subscribes with the write lock held after the result was broadcast
  waits forever, and with it every caller of any key that still needs the lock (`BlockedForever`,
  `BlockedIsReachable`). The lock, tokio's `RwLock`, is first come, first served, so that the group
  can be lost long before: three callers that miss the same key together are enough, whatever the
  schedule (`ThreeCallersAreDoomed`). `EveryoneCanReturnIff` says exactly when all callers can still
  return.
- `max_retries` is compared once as an unsigned and once as a signed number. With a limit from 2^31
  on, a row is labelled failed at its first failed retry while sweeps go on retrying it
  (`FailedAndRetried`, `FailedIsFinalIff`), and a limit of 0 leaves rows pending that no sweep
  selects (`AlwaysOkIff`).
- `load_saga` returns the last record that was stored. When later records are lost, that can be the
  Completed record of one step of a saga that failed (`LostEndMisleads`). A loaded record settles the
  outcome if and only if it is not a Running one, and not the Completed one of a step that another
  follows (`SettlesIff`, `LoadedTells`).
- Half-open probes are counted when they start and again when they succeed, so half of `max_probes`
  successful calls close the breaker (`ClosesAfterHalf`). A half-open breaker that refuses everything
  waits for the outcome of a call that it let through (`ExhaustedHasCall`); with `max_probes` 0 none
  is let through after an opening (`NoProbesNoCalls`).
- A cron task fires for the next matching minute after it has ended, so a slow turn loses the
  matching minutes it runs into; `LosslessIff` and `FiresAllIff` say exactly when none is lost.
- The cache calls itself LRU with a capacity; it evicts by expiry time, never evicts an entry
  without one, and so can outgrow its capacity (`CapacityIsNoBound`). It stays within it exactly if
  no new key comes while as many values without expiry are in use as the cache has room for
  (`CapacityKeptIff`).
- A negative request quota is cast to a very large one, so that more than four thousand million
  requests are let through in a minute (`NegativeQuotaAdmitsMany`); the bounds are stated for the
  cast value.

## Model

| member | source | states |
|---|---|---|
| `ApiRoundTrip.RoundTrip` | rszero/src/api/parser.rs:107-389 | printing a file and parsing the text returns that file if and only if the file is well formed |
| `ApiRoundTrip.ParseUndoesRender` | rszero/src/api/parser.rs:107-389 | a well-formed file is read back from its tokens in every layout of blanks and comments that keeps the tokens apart, with any number of newlines, also none, wherever a line ends |
| `ApiRoundTrip.ParseableIffWellFormed` | rszero/src/api/parser.rs:383-389 | the files that some source text is parsed to are exactly the well-formed ones |
| `ApiRoundTrip.ParsedIsWellFormed` | rszero/src/api/parser.rs:107-251 | for every source text, a file that the parser returns is well formed; in particular no route has a response type without a request type |
| `ApiRoundTrip.ReturnsIsAbsorbed` | rszero/src/api/parser.rs:213-251 | a route with a response but no request type is read with `returns` at the end of its path and the response type as request type |
| `ApiRoundTrip.RouteReads` | rszero/src/api/parser.rs:213-251 | one printed route, in front of any tokens that may follow a route, is parsed to itself and the cursor stops where its line ends, with or without a newline there |
| `ApiRoundTrip.FileReads` | rszero/src/api/parser.rs:107-141 | any token list with the kinds of a well-formed file, up to the number of newlines at the ends of lines, is parsed to that file |
| `ApiRoundTrip.FileWritable` | rszero/src/api/parser.rs:359-379 | the tokens of a well-formed file can all be spelled, so the path cut into longest tokens survives the lexer |
| `ApiRoundTrip.WholeFileIsRead` | rszero/src/api/parser.rs:107-141 | an accepted source is read up to its last token, the end of file |
| `ApiRoundTrip.OneEof` | rszero/src/api/lexer.rs:86-97 | for every source text, the end of file occurs once among its tokens, last |
| `ApiRoundTrip.PathVerbatim` | rszero/src/api/parser.rs:359-379 | a path written without blanks is read up to the first two slashes next to each other |
| `ApiRoundTrip.PathVerbatimIff` | rszero/src/api/lexer.rs:123-131 | a path written without blanks is read back if and only if no two slashes stand next to each other in it |
| `ApiNewlines.BlankLinesDoNotMatter` | rszero/src/api/parser.rs:107-389 | any two source texts whose tokens differ only in the length of their runs of newlines, and in newlines at the top, are parsed to the same file or rejected with the same error at another place |
| `ApiNewlines.SameFileLoop` | rszero/src/api/parser.rs:107-141 | the same from any two cursors of any two token lists, result and what is left to read |
| `ApiNewlines.SameRoute` | rszero/src/api/parser.rs:213-251 | a route is read alike however many newlines follow its handler line |
| `ApiNewlines.SameSkip` | rszero/src/api/parser.rs:287-291 | skipping newlines brings two such token lists to the same token |
| `ApiDeclarations.TextRead` | rszero/src/api/parser.rs:107-141 | declarations in any order and any number of times, in every layout, are parsed to the file that they declare: the last syntax line or `v1`, the last info block or nothing, all types and all services in their order |
| `ApiDeclarations.DefaultsMayBeLeftOut` | rszero/src/api/parser.rs:107-141 | a well-formed file with syntax `v1` is read back without its syntax line, and one without info without its info block |
| `ApiGrammar.AcceptedIff` | rszero/src/api/parser.rs:107-251 | a source text is accepted, and parsed to a file, if and only if its tokens are derived by the grammar from declarations that declare this file; the grammar is a relation without cursor or loops |
| `ApiGrammar.InfoDerived` | rszero/src/api/parser.rs:150-168 | what is accepted as an info block is one: the two tokens before it, a key, a colon and a string for each pair, and the closing parenthesis |
| `ApiGrammar.TypeDerived` | rszero/src/api/parser.rs:170-193 | what is accepted as a type is one: a name, a type and a tag if one follows for each field, between braces |
| `ApiGrammar.RouteDerived` | rszero/src/api/parser.rs:213-251 | what is accepted as a route is one: handler line, newlines, a method in any letter case, the longest path, the types |
| `ApiGrammar.ServiceDerived` | rszero/src/api/parser.rs:195-211 | what is accepted as a service is its routes between braces |
| `ApiErrors.InfoSkipsForeign` | rszero/src/api/parser.rs:150-168 | any tokens between pairs that begin no pair are skipped, and the pairs read so far are kept |
| `ApiErrors.FieldsSkipForeign` | rszero/src/api/parser.rs:170-193 | the same between the fields of a type |
| `ApiErrors.RoutesSkipForeign` | rszero/src/api/parser.rs:195-211 | the same between the routes of a service |
| `ApiErrors.FileSkipsForeign` | rszero/src/api/parser.rs:107-141 | the same between declarations |
| `ApiErrors.MethodInAnyCase` | rszero/src/api/parser.rs:213-251 | a word is read as a method if and only if it is the name of the method, in any letter case |
| `ApiErrors.ErrorsAreLocated` | rszero/src/api/parser.rs:293-379 | every error of every source text names a token that is not what was expected there, and the line of that token |
| `ApiErrors.OtherWordsAreErrors` | rszero/src/api/parser.rs:107-141 | a word that is no keyword, where a declaration may begin, is an error in its line |
| `ApiLayout.TilingIsUnique` | rszero/src/api/lexer.rs:86-229 | a list of lexemes and gaps tiles the source if and only if it is the one the lexer returns |
| `ApiLayout.ScanReads` | rszero/src/api/lexer.rs:99-138 | what the lexer skips is blanks and at most a comment, and what it returns is spelled by exactly the characters it consumed |
| `ApiLayout.ReadsIsScan` | rszero/src/api/lexer.rs:99-138 | only one lexeme, read as long as possible, fits at an offset |
| `ApiLayout.LexUndoesRender` | rszero/src/api/lexer.rs:86-97 | lexing undoes every admissible layout of a writable token list |
| `ApiLayout.SpacesAdmissible` | rszero/src/api/lexer.rs:150-167 | single blanks are an admissible layout of every token list |
| `ApiLayout.TokensAreStamped` | rszero/src/api/lexer.rs:140-148 | every token carries the line and column computed from the source text before it |
| `ApiLayout.TokensAreWritable` | rszero/src/api/lexer.rs:86-229 | the tokens of every source are spellable and end with the end of file |
| `ApiLexer.Lexer.constructor` | rszero/src/api/lexer.rs:73-83 | the cursor starts on the first character, at line 1 and column 1 |
| `ApiLexer.Lexer.Advance` | rszero/src/api/lexer.rs:140-148 | one character further; line and column stay those of the offset |
| `ApiLexer.Lexer.SkipWhitespace` | rszero/src/api/lexer.rs:150-158 | stops at the first character that is not a blank |
| `ApiLexer.Lexer.SkipLineComment` | rszero/src/api/lexer.rs:160-167 | stops at the next newline or at the end |
| `ApiLexer.Lexer.ReadRun` | rszero/src/api/lexer.rs:201-229 | the longest run without a stopping character, and the cursor after it |
| `ApiLexer.Lexer.ReadQuoted` | rszero/src/api/lexer.rs:169-199 | the text up to the closing quote or the end, and the cursor past the quote |
| `ApiLexer.Lexer.ReadWord` | rszero/src/api/lexer.rs:132-136 | the token of a string, tag, number, identifier or other character |
| `ApiLexer.Lexer.SlashOrComment` | rszero/src/api/lexer.rs:123-131 | one slash is a token; two start a comment, after which the next token is read |
| `ApiLexer.Lexer.PlainToken` | rszero/src/api/lexer.rs:105-137 | the token at a character other than a slash, or the end of file |
| `ApiLexer.Lexer.NextToken` | rszero/src/api/lexer.rs:99-138 | the token after blanks and a comment, with its position, and the cursor at its end |
| `ApiLexer.Lexer.Tokenize` | rszero/src/api/lexer.rs:86-97 | all tokens up to and including the end of file |
| `ApiParser.Parser.constructor` | rszero/src/api/parser.rs:102-105 | the cursor starts on the first token |
| `ApiParser.Parser.Advance` | rszero/src/api/parser.rs:263-267 | one token further, and never past the end |
| `ApiParser.Parser.TakeNewlines` | rszero/src/api/parser.rs:287-291 | the cursor at the first token that is no newline |
| `ApiParser.Parser.TakeKind` | rszero/src/api/parser.rs:293-303 | consumes the expected token or fails |
| `ApiParser.Parser.TakeWord` | rszero/src/api/parser.rs:305-316 | consumes the expected word or fails |
| `ApiParser.Parser.TakeIdent` | rszero/src/api/parser.rs:318-329 | consumes an identifier or fails |
| `ApiParser.Parser.TakeStr` | rszero/src/api/parser.rs:331-343 | consumes a string or fails |
| `ApiParser.Parser.TakeTick` | rszero/src/api/parser.rs:345-357 | consumes a tag or fails |
| `ApiParser.Parser.TakePath` | rszero/src/api/parser.rs:359-379 | concatenates the path pieces up to the first other token; an empty path is an error |
| `ApiParser.Parser.ParseSyntax` | rszero/src/api/parser.rs:143-148 | follows the grammar function of the syntax line, result and cursor |
| `ApiParser.Parser.ParseInfo` | rszero/src/api/parser.rs:150-168 | follows the grammar function of the info block |
| `ApiParser.Parser.TakeTag` | rszero/src/api/parser.rs:170-193 | a tag if one follows, and otherwise nothing is consumed |
| `ApiParser.Parser.ParseTypeDef` | rszero/src/api/parser.rs:170-193 | follows the grammar function of a type |
| `ApiParser.Parser.TakeParenthesized` | rszero/src/api/parser.rs:213-251 | a type name between parentheses, or an error |
| `ApiParser.Parser.ParseRouteBody` | rszero/src/api/parser.rs:213-251 | follows the grammar function of a route after its handler line: method, path, request, response |
| `ApiParser.Parser.ParseRoute` | rszero/src/api/parser.rs:213-251 | follows the grammar function of a route |
| `ApiParser.Parser.ParseService` | rszero/src/api/parser.rs:195-211 | follows the grammar function of a service |
| `ApiParser.Parser.Parse` | rszero/src/api/parser.rs:107-141 | follows the grammar function of a file, whose result and error the lemmas above are about |
| `ApiParser.FileAt` | rszero/src/api/parser.rs:107-141 | for every token list, an accepted file was read without passing an end of file, and the cursor stands on the first one |
| `ApiParser.RoutesLoop` | rszero/src/api/parser.rs:195-211 | the loop consumes tokens and stops at a closing brace or the end of file |
| `ApiParser.ParseSource` | rszero/src/api/parser.rs:383-389 | the lexer and the parser together compute the function that the round trip is about |
| `SingleFlight.RunKeeps` | rszero/src/concurrent/singleflight.rs:50-92 | the invariant holds in every state of every interleaving of any number of callers |
| `SingleFlight.StepKeeps` | rszero/src/concurrent/singleflight.rs:50-92 | each step of each task keeps the invariant on map, channels, lock and tasks |
| `SingleFlight.OneExecutionPerKey` | rszero/src/concurrent/singleflight.rs:50-92 | at most one task per key is between its insert and its remove, and the map holds exactly the keys being executed |
| `SingleFlight.RemovesOwnEntry` | rszero/src/concurrent/singleflight.rs:84-92 | the final remove deletes the entry that the same task inserted |
| `SingleFlight.ResultOrigin` | rszero/src/concurrent/singleflight.rs:50-92 | a caller returns its own result, or that of an execution for its key that had not broadcast when the caller subscribed |
| `SingleFlight.SharesResult` | rszero/src/concurrent/singleflight.rs:54-89 | a caller that looks its key up, or comes to the lock, while the work is in flight and nothing is broadcast, only waits on that channel from then on, until it is done with the result broadcast there; it never executes `f`, and after a lookup never holds the lock |
| `SingleFlight.MissExecutes` | rszero/src/concurrent/singleflight.rs:68-84 | a caller that comes to the lock when nobody executes the work of its key executes it |
| `SingleFlight.StepAdvances` | rszero/src/concurrent/singleflight.rs:50-92 | every step takes its own task from one place in `work` to the next one, and moves no other |
| `SingleFlight.OncePerPlace` | rszero/src/concurrent/singleflight.rs:50-92 | no task comes to the same place in `work` twice: it looks up, inserts, executes, sends and removes once at most |
| `SingleFlight.SlowClosedNever` | rszero/src/concurrent/singleflight.rs:69-82 | a waiter that holds the write lock never sees its channel closed |
| `SingleFlight.CanReturnIff` | rszero/src/concurrent/singleflight.rs:50-92 | with the lock taken in any order, in every reachable state a caller has a continuation in which it returns if and only if no caller with the write lock waits for a message sent before it subscribed, or the caller has its result or its message already; for the lock in its order see `EveryoneCanReturnIff` |
| `SingleFlight.BlockedForever` | rszero/src/concurrent/singleflight.rs:69-92 | once a caller with the write lock waits for such a message, it holds the lock in every continuation, and no task of any key that needs the lock ever moves again |
| `SingleFlight.UnservedForever` | rszero/src/concurrent/singleflight.rs:50-92 | from then on a caller that has no result and no message yet never gets one |
| `SingleFlight.BlockedIsReachable` | rszero/src/concurrent/singleflight.rs:50-92 | two callers suffice to get there |
| `SingleFlightQueue.Projects` | rszero/src/concurrent/singleflight.rs:50-92 | with the lock taken in the order in which it was asked for, every run passes through the states of a run without that order, so that what is proved about those holds |
| `SingleFlightQueue.EveryoneCanReturnIff` | rszero/src/concurrent/singleflight.rs:50-92 | in every reachable state, with the lock first come, first served, all callers can return if and only if no caller waits for a message it has missed and the queue, served in its order, brings none to the lock between the broadcast and the remove of its key |
| `SingleFlightQueue.LostForever` | rszero/src/concurrent/singleflight.rs:69-92 | a caller behind such a place in the queue never returns, in any continuation |
| `SingleFlightQueue.FirstTakes` | rszero/src/concurrent/singleflight.rs:55-92 | what the first in the queue makes of the entry of a key is what its step does to the map; coming after the broadcast it blocks the group |
| `SingleFlightQueue.SafeCan` | rszero/src/concurrent/singleflight.rs:50-92 | from a state that is not lost so, serving the queue in its order lets any given caller return |
| `SingleFlightQueue.ThreeCallersAreDoomed` | rszero/src/concurrent/singleflight.rs:50-92 | three callers that miss the key together lose the group before anything is broadcast, with the lock free |
| `Saga.TryCompensate` | rszero/src/saga/mod.rs:141-160 | up to three attempts at one compensation; an error only if the third fails |
| `Saga.Execute` | rszero/src/saga/mod.rs:120-181 | the loops compute the saga function that the lemmas are about: world, calls and result |
| `Saga.ExecuteShape` | rszero/src/saga/mod.rs:120-181 | every run calls the actions once in order; a failure at step f is followed by the compensations of exactly the steps before f, last first, one to three times each |
| `Saga.Atomicity` | rszero/src/saga/mod.rs:120-181 | if failed attempts change nothing and each compensation inverts its action within three attempts, a failed saga leaves the world as it was |
| `PersistentSaga.TryCompensateLogged` | rszero/src/saga/persistence.rs:361-391 | the same attempts, with the record after the last of them; which record that is, see `OutcomesAreRecorded` |
| `PersistentSaga.ExecuteLogged` | rszero/src/saga/persistence.rs:304-428 | the loops compute the logged saga function: world, calls, events and result |
| `PersistentSaga.RefinesSaga` | rszero/src/saga/persistence.rs:304-428 | for any pattern of persister failures, the calls, the worlds and the result are those of the plain saga, up to rewrapped compensation errors |
| `PersistentSaga.JournalIsSound` | rszero/src/saga/persistence.rs:308-428 | in every run the events up to the final record are sound, and the final record says whether all steps succeeded |
| `PersistentSaga.CrashPoint` | rszero/src/saga/persistence.rs:308-419 | at every crash point: each action directly follows its attempted Running record, no compensation precedes the attempt at the compensating record, and effects exceed attempted Completed records by 0 or 1; these are rows where the persister worked |
| `PersistentSaga.SoundAtEveryCrash` | rszero/src/saga/persistence.rs:308-419 | every prefix of a sound sequence of events is sound |
| `PersistentSaga.EventIsSound` | rszero/src/saga/persistence.rs:308-419 | what soundness says about each single event |
| `PersistentSaga.OutcomesAreRecorded` | rszero/src/saga/persistence.rs:326-391 | in every run: right after a successful action its Completed record; right after a failed one its Failed record with the error text, and then the compensating record; right after a successful compensation its Compensated record; right after the third failed try in a row its Compensating record with the error text, and after an earlier one another try; records of outcomes stand nowhere else before the final one |
| `PersistentSaga.CompensationErrors` | rszero/src/saga/mod.rs:141-160 | the compensation errors of a saga are exactly the steps whose compensation failed three times in a row, in order, each with the error of its third try; the persistent saga wraps each again |
| `PersistentSaga.LoadsLast` | rszero/src/saga/persistence.rs:197-222 | the record loaded is the last one stored for that saga, whatever other sagas store |
| `PersistentSaga.LoadTellsSuccess` | rszero/src/saga/persistence.rs:197-222 | if the final record was stored, whatever else was lost, the record loaded after a run is Completed if and only if all steps succeeded |
| `PersistentSaga.LoadedTells` | rszero/src/saga/persistence.rs:197-222 | for any pattern of lost records: if the record loaded is neither Running nor the Completed one of a step that another follows, all steps succeeded exactly if it is Completed (or the saga has no steps) |
| `PersistentSaga.RowsArePossible` | rszero/src/saga/persistence.rs:308-428 | what the rows of a run that succeeds, and of one that fails, can be, for any pattern of lost records |
| `PersistentSaga.SettlesIff` | rszero/src/saga/persistence.rs:197-222 | of the records that can be loaded, exactly those settle the outcome: all runs with these steps that load one have ended alike |
| `PersistentSaga.EitherOutcome` | rszero/src/saga/persistence.rs:197-222 | every other record that can be loaded is loaded after a run that succeeds and after a run that fails |
| `PersistentSaga.LoadedEndIsTrue` | rszero/src/saga/persistence.rs:197-222 | for any pattern of lost records, a final record that is loaded is Completed if and only if all steps succeeded, unless a step followed by another has the name of that record |
| `PersistentSaga.LostEndMisleads` | rszero/src/saga/persistence.rs:197-222 | a failed saga whose later records are lost is loaded as Completed |
| `Outbox.TransactionalQueue.constructor` | rszero/src/queue/transactional.rs:87-89 | the queue works on the table it is given, with the rows that are there |
| `Outbox.TransactionalQueue.Try` | rszero/src/queue/transactional.rs:198-216 | push, then mark; an error of either is reported, and a push stays when the mark fails |
| `Outbox.TransactionalQueue.PublishReliable` | rszero/src/queue/transactional.rs:126-158 | a failed insert is an error and leaves no row; after an insert, whatever the immediate attempt does is not an error |
| `Outbox.TransactionalQueue.Sweep` | rszero/src/queue/transactional.rs:235-290 | a failed query is an error and changes nothing; otherwise the table after all selected rows, and the number of rows that were pushed and marked |
| `Outbox.TransactionalQueue.Stats` | rszero/src/queue/transactional.rs:293-321 | the numbers of pending, published and failed rows, which add up to all rows |
| `Outbox.CountStatusIs` | rszero/src/queue/transactional.rs:293-321 | each of the three counts is the number of rows with that status |
| `Outbox.StepKeeps` | rszero/src/queue/transactional.rs:126-290 | every step of every publisher and sweeper keeps the invariant on rows, queue and tasks |
| `Outbox.RunKeeps` | rszero/src/queue/transactional.rs:126-290 | in every interleaving with any failures and lost answers: published rows were pushed with their own topic and payload, failed rows are at the limit, pending rows below it, and the queue holds nothing but rows |
| `Outbox.AlwaysOkIff` | rszero/src/queue/transactional.rs:260-265 | that promise about rows holds in all runs if and only if the limit is between 1 and 2^31 - 1 |
| `Outbox.FailedIsFinalIff` | rszero/src/queue/transactional.rs:235-290 | that a row labelled failed is never selected again holds in all runs if and only if the limit is below 2^31 |
| `Outbox.FailedAndRetried` | rszero/src/queue/transactional.rs:260-265 | with a limit from 2^31 on, a failed retry labels the row failed, and the row is still selected as long as its count is below the limit |
| `Outbox.Durability` | rszero/src/queue/transactional.rs:126-195 | in every run the rows are exactly the messages asked for, in order and unchanged |
| `Outbox.Conservation` | rszero/src/queue/transactional.rs:293-321 | pending, published and failed rows together are as many as the messages asked for |
| `Outbox.SweepProgress` | rszero/src/queue/transactional.rs:235-290 | with working updates a sweep lowers the retries left over all eligible rows by at least the smaller of 100 and the number of eligible rows |
| `Outbox.SelectAll` | rszero/src/queue/transactional.rs:236-246 | a query that does not reach its limit leaves no eligible row out |
| `Outbox.SelectsOldest` | rszero/src/queue/transactional.rs:236-246 | no eligible row that is older than a selected one is left out |
| `Outbox.OldestIsFirst` | rszero/src/queue/transactional.rs:236-246 | the oldest eligible row is attempted in every sweep, and first |
| `Outbox.SweepOutcome` | rszero/src/queue/transactional.rs:235-290 | a sweep attempts the oldest eligible rows, up to a hundred; each attempted row is published, or counted up and labelled by the limit, or as it was when the update failed; all other rows are as they were; one push for each attempt that reaches the queue |
| `Outbox.PushesCounted` | rszero/src/queue/transactional.rs:198-216 | in every run the queue holds as many pushes as reached it |
| `Outbox.Drains` | rszero/src/queue/transactional.rs:235-290 | from any table, a hundredth of the retries left plus one sweep per retry are enough to leave no eligible row |
| `Outbox.EverythingSettles` | rszero/src/queue/transactional.rs:235-290 | after any run and that many sweeps, every message asked for is published and was pushed, or is failed at the limit |
| `Outbox.BudgetBound` | rszero/src/queue/transactional.rs:235-290 | the retries left are at most the limit times the number of rows |
| `Outbox.SweepRuns` | rszero/src/queue/transactional.rs:235-290 | a whole sweep is one of the interleaved runs |
| `Outbox.PublishRuns` | rszero/src/queue/transactional.rs:126-158 | a whole immediate publish is one of the interleaved runs |
| `Breaker.CircuitBreaker.constructor` | rszero/src/breaker/mod.rs:83-93 | closed, with an empty window and all counters at zero |
| `Breaker.CircuitBreaker.EvaluateState` | rszero/src/breaker/mod.rs:223-242 | an open breaker becomes half-open with no probes counted once the cooldown has passed |
| `Breaker.CircuitBreaker.ShouldOpen` | rszero/src/breaker/mod.rs:252-260 | enough outcomes and a failure rate at or above the threshold, the failures counted as in `FailureCountIs` |
| `Breaker.FailureCountIs` | rszero/src/breaker/mod.rs:257-257 | the count is the number of entries in the window that are failures |
| `Breaker.TooManyIff` | rszero/src/breaker/mod.rs:252-260 | the decision is that of the quotient of failures and outcomes, with enough outcomes |
| `Breaker.CircuitBreaker.RecordSuccess` | rszero/src/breaker/mod.rs:135-149 | the whole new state after a success |
| `Breaker.CircuitBreaker.RecordFailure` | rszero/src/breaker/mod.rs:152-177 | the whole new state after a failure |
| `Breaker.CircuitBreaker.Admit` | rszero/src/breaker/mod.rs:192-207 | whether a call may start, and the probe counted for it |
| `Breaker.CircuitBreaker.Execute` | rszero/src/breaker/mod.rs:192-219 | admission and outcome of one call together |
| `Breaker.OpeningStartsCooldown` | rszero/src/breaker/mod.rs:152-177 | only a failure opens the breaker, and its time is the start of the cooldown |
| `Breaker.NoAdmissionDuringCooldown` | rszero/src/breaker/mod.rs:192-242 | in every run with overlapping calls, no call is let through less than the cooldown after an opening, unless a reset came between |
| `Breaker.CooledAdmits` | rszero/src/breaker/mod.rs:192-242 | the first call after the cooldown, to the moment, is let through |
| `Breaker.EpisodeAdmitsFew` | rszero/src/breaker/mod.rs:192-207 | every stretch of the half-open state lets at most `max_probes` calls through |
| `Breaker.GrantedIff` | rszero/src/breaker/mod.rs:192-207 | a call of a half-open episode is let through if and only if admissions and successes before it are fewer than `max_probes` |
| `Breaker.EpisodeEnds` | rszero/src/breaker/mod.rs:135-177 | a half-open episode reopens exactly on a failure, and closes exactly on a reset or on a success with which admissions and successes of the episode reach `max_probes` |
| `Breaker.ProbesCounted` | rszero/src/breaker/mod.rs:142-203 | the probe counter is the number of admissions, refused ones included, and successes since the half-open state was entered |
| `Breaker.ClosesAfterHalf` | rszero/src/breaker/mod.rs:135-242 | from an open breaker whose cooldown has passed, or one just half-open, successful calls one after the other close it with number ceil(max_probes / 2), and not before |
| `Breaker.ExhaustedRefuses` | rszero/src/breaker/mod.rs:199-207 | with its probes used up, a half-open breaker refuses every call until an outcome or a reset |
| `Breaker.ExhaustedHasCall` | rszero/src/breaker/mod.rs:192-207 | with `max_probes` at least 1, a half-open breaker with its probes used up always has a call that was let through, with no outcome and no reset since |
| `Breaker.NoProbesNoCalls` | rszero/src/breaker/mod.rs:135-207 | with `max_probes` 0, a breaker that is not closed lets no call through until a reset or a success recorded after the cooldown, either of which closes it |
| `Breaker.WindowIsRecent` | rszero/src/breaker/mod.rs:244-250 | in every run the pruned window is the full history since the last reset, cut to the window length |
| `Breaker.RecentIsEnd` | rszero/src/breaker/mod.rs:244-250 | pruning entries in the order of time keeps their end |
| `Breaker.RecentFromMeans` | rszero/src/breaker/mod.rs:244-250 | which consists of exactly the entries not older than the window |
| `Breaker.OpensIff` | rszero/src/breaker/mod.rs:152-168 | a closed breaker opens if and only if a failure comes and, of the outcomes since the reset that are not older than the window, there are enough and the quotient of failures, itself included, and outcomes reaches the threshold |
| `Breaker.FailuresOpen` | rszero/src/breaker/mod.rs:152-168 | a closed breaker opens at a failure with which there are enough outcomes in the window and all are failures, for every threshold up to 1 |
| `Breaker.SuccessesKeepClosed` | rszero/src/breaker/mod.rs:135-207 | without a failure the breaker stays closed and lets every call through |
| `Breaker.TotalsCount` | rszero/src/breaker/mod.rs:135-187 | the totals count every outcome since creation |
| `RedisLock.RedisKey.TryAcquire` | rszero/src/cache/lock.rs:59-85 | set if absent with an expiry; an error for a time to live of 0 seconds |
| `RedisLock.RedisKey.Release` | rszero/src/cache/lock.rs:91-114 | delete if the token is the own one, and tell |
| `RedisLock.RedisKey.Refresh` | rszero/src/cache/lock.rs:117-137 | extend if the token is the own one, and tell; 0 seconds delete the key |
| `RedisLock.Origin` | rszero/src/cache/lock.rs:59-137 | a token that shows was acquired once and has shown at every command since |
| `RedisLock.TrueMeansHeld` | rszero/src/cache/lock.rs:91-137 | when a release or refresh answers true, the key has shown its token at every time since the acquisition, and nobody else acquired |
| `RedisLock.GoneForever` | rszero/src/cache/lock.rs:29-137 | a token that no longer shows never shows again |
| `RedisLock.LateCommandIsHarmless` | rszero/src/cache/lock.rs:29-52 | after another acquisition, every release or refresh of an earlier owner answers false and leaves the key as it is |
| `RedisLock.ReleasedOnce` | rszero/src/cache/lock.rs:153-175 | after a release that answered true, the one of the destructor and any other changes nothing |
| `RedisLock.OnlyOwnerShortens` | rszero/src/cache/lock.rs:91-137 | only the own release or a refresh to 0 seconds takes the lock away before its time |
| `RedisLock.MutualExclusion` | rszero/src/cache/lock.rs:59-137 | while every command lands before the current deadline, no acquisition succeeds and the refreshes of the owner do |
| `RedisLock.AcquiredIff` | rszero/src/cache/lock.rs:59-85 | an acquisition for more than 0 seconds succeeds if and only if no earlier one is in force: acquired, kept alive since, and before its deadline |
| `RedisLock.HandoverNeedsLetGo` | rszero/src/cache/lock.rs:59-137 | whenever the lock changes hands, its owner released it, refreshed it to 0 seconds or missed a deadline |
| `RedisLock.AutoRefreshExcludes` | rszero/src/cache/lock.rs:180-231 | with background refreshes landing less than the time to live apart, nobody else acquires until the release, and the release answers true |
| `Sharding.Fnv1a32` | rszero/src/store/sharding.rs:173-180 | the loop computes the 32-bit FNV-1a hash |
| `Sharding.XorTwice` | rszero/src/store/sharding.rs:176-176 | the 32-bit combination with a byte is undone by combining with it again |
| `Sharding.XorIs` | rszero/src/store/sharding.rs:176-176 | the lowest eight bits are those in which hash and byte differ, the others those of the hash |
| `Sharding.KnownRounds` | rszero/src/store/sharding.rs:173-180 | basis and multiplier are the published ones, and a byte is put in before the multiplication |
| `Sharding.KnownHashes` | rszero/src/store/sharding.rs:173-180 | the published hashes of one byte 0 and one byte 1 |
| `Sharding.MixLosesNothing` | rszero/src/store/sharding.rs:175-178 | one round of the hash loses nothing: different bytes, or different hashes, stay different |
| `Sharding.OneByteMoves` | rszero/src/store/sharding.rs:173-180 | two texts that differ in exactly one byte have different positions on the ring |
| `Sharding.HashIndex` | rszero/src/store/sharding.rs:48-67 | the loop with 64-bit wrapping distances and its sentinel returns the lowest-numbered shard that owns the first virtual node clockwise on the ring of 2^32 positions, for every key, slot count and shard count; 0 without shards |
| `Sharding.SearchShard` | rszero/src/store/sharding.rs:57-65 | the inner loop extends the least distance, and where it was first found, by the nodes of one shard |
| `Sharding.SameOrder` | rszero/src/store/sharding.rs:59-63 | distances that wrap at 2^64 are ordered as the clockwise distances on the ring |
| `Sharding.OneOwner` | rszero/src/store/sharding.rs:46-67 | with at least one shard every key has an owner, and only one |
| `Sharding.OwnerIsNextUp` | rszero/src/store/sharding.rs:57-65 | the owner's virtual node is the first at or above the position of the key, or the lowest of all if none is that high |
| `Sharding.GrowthMovesToNew` | rszero/src/store/sharding.rs:46-67 | more shards move a key only to a new shard; fewer shards move only keys of removed ones |
| `Sharding.NodesApart` | rszero/src/store/sharding.rs:57-58 | virtual nodes whose numbers differ in the last digit of one of them have different positions on the ring |
| `Sharding.RangeIndex` | rszero/src/store/sharding.rs:68-76 | the first range that holds the number, cut to the last shard, or 0 |
| `Sharding.ShardIndex` | rszero/src/store/sharding.rs:46-120 | the index that `route` uses is that of a shard, for every strategy |
| `Sharding.PrintedKeyNumber` | rszero/src/store/sharding.rs:68-69 | the key that prints a number is routed by that number if it fits 64 bits, and by 0 otherwise |
| `Decimals.NoLeadingZero` | rszero/src/store/sharding.rs:58-58 | numbers in the names of virtual nodes have no leading zeros |
| `CronFields.ParsePart` | rszero/src/scheduler/cron.rs:120-145 | accepted exactly when a number or range within bounds; the values are those of the range |
| `CronFields.ParseList` | rszero/src/scheduler/cron.rs:106-113 | accepted exactly when every part is; the sorted union of the parts |
| `CronFields.ParseField` | rszero/src/scheduler/cron.rs:90-118 | accepted exactly when well formed; ascending, not empty, and exactly the numbers the field stands for |
| `CronFields.RangeFieldMeans` | rszero/src/scheduler/cron.rs:120-134 | a written range is accepted if and only if it is one and within the bounds, and stands for all numbers from its first to its last |
| `CronFields.StepFieldMeans` | rszero/src/scheduler/cron.rs:95-103 | a written step is accepted if and only if it is from 1 to 255, and stands for every such step from the least value on |
| `CronFields.ParseExpr` | rszero/src/scheduler/cron.rs:47-63 | accepted exactly when there are five acceptable fields; every field is within its bounds and holds what its text denotes |
| `CronFields.FieldRoundTrip` | rszero/src/scheduler/cron.rs:90-118 | the list of any ascending numbers within the bounds is accepted and stands for exactly these numbers |
| `CronFields.ExprRoundTrip` | rszero/src/scheduler/cron.rs:47-63 | every well-formed expression can be written so that parsing returns it |
| `CronFields.GapsAreSkipped` | rszero/src/scheduler/cron.rs:48-48 | how much white space stands at the ends and between fields does not matter |
| `CronFields.SplitUndoesJoin` | rszero/src/scheduler/cron.rs:106-107 | splitting at commas returns the parts that were joined, if none holds a comma |
| `CronFields.SortDedup` | rszero/src/scheduler/cron.rs:110-111 | ascending, with the same elements |
| `Cron.NextAfter` | rszero/src/scheduler/cron.rs:66-78 | the least matching minute that starts after the input, or None exactly if none lies within the horizon |
| `Cron.NextIsUnique` | rszero/src/scheduler/cron.rs:66-78 | there is only one such answer |
| `Cron.AlwaysWithinAWeek` | rszero/src/scheduler/cron.rs:66-88 | with `*` for day and month the search always succeeds, within seven days |
| `Cron.MatchesIff` | rszero/src/scheduler/cron.rs:80-88 | a minute matches if and only if its minute, hour, day, month and weekday, counted from Sunday, are each allowed |
| `Cron.SearchesFourYears` | rszero/src/scheduler/cron.rs:66-78 | a search that finds nothing missed nothing in four years of 365 days |
| `Cron.CronLoop` | rszero/src/scheduler/cron.rs:160-189 | the task fires for matching minutes only, never twice for one, never a millisecond early; it fires for every matching minute if and only if no turn runs into one, and so with lags under 59 seconds a turn |
| `Cron.MatchesInExact` | rszero/src/scheduler/cron.rs:81-87 | the minutes that the loop is compared with are exactly the matching ones, each once |
| `Cron.TurnReachesIff` | rszero/src/scheduler/cron.rs:167-183 | a turn lasts into a minute if and only if its lags reach it, less the second it sleeps and what the sleep was cut by |
| `Cron.TurnExact` | rszero/src/scheduler/cron.rs:167-183 | a turn fires for all matching minutes it covers if and only if none lies between its own and its end |
| `Cron.LosslessIff` | rszero/src/scheduler/cron.rs:167-183 | and that is so if and only if its lags stay below the distance to every later matching minute |
| `Cron.FiresAllIff` | rszero/src/scheduler/cron.rs:160-189 | a loop of any number of turns fires for every matching minute if and only if no turn loses one |
| `Cron.FiredOnce` | rszero/src/scheduler/cron.rs:160-189 | the minutes fired for are matching minutes between start and end, in order and each once |
| `MemCache.Cache.constructor` | rszero/src/cache/memcache.rs:50-55 | an empty cache |
| `MemCache.Cache.Get` | rszero/src/cache/memcache.rs:58-65 | the value unless expired; an expired entry is removed |
| `MemCache.Cache.Evict` | rszero/src/cache/memcache.rs:76-89 | the victim is expired, or expires soonest; none exactly if nothing in the cache expires |
| `MemCache.Cache.SetWithTtl` | rszero/src/cache/memcache.rs:73-93 | at most one admissible victim goes, and only for a new key at capacity; the value is stored |
| `MemCache.Cache.Delete` | rszero/src/cache/memcache.rs:96-98 | the entry goes; whether there was one, expired or not |
| `MemCache.Cache.Clear` | rszero/src/cache/memcache.rs:116-118 | everything goes |
| `MemCache.RunRefines` | rszero/src/cache/memcache.rs:58-118 | in every run the cache is part of an unbounded reference map and lacks only entries that have an expiry time |
| `MemCache.GetReturnsLatest` | rszero/src/cache/memcache.rs:58-65 | what `get` returns is the value of the latest `set` of its key, not deleted, cleared or expired since |
| `MemCache.NoTtlSurvives` | rszero/src/cache/memcache.rs:68-93 | a value set without expiry is returned until it is overwritten, deleted or cleared |
| `MemCache.ExactBelowCapacity` | rszero/src/cache/memcache.rs:58-118 | while the keys in use fit the capacity, every `get` answers as the unbounded map would |
| `MemCache.LivesToItsEnd` | rszero/src/cache/memcache.rs:20-31 | while the keys in use fit the capacity, a value is returned up to its set time plus its time to live, and not after |
| `MemCache.LaterOnesStay` | rszero/src/cache/memcache.rs:73-93 | a `set` of another key takes no unexpired value away while the cache holds one that expires earlier |
| `MemCache.SizeBound` | rszero/src/cache/memcache.rs:73-93 | the size is at most the larger of the capacity and one more than the most never-expiring entries held at once |
| `MemCache.CapacityKeptIff` | rszero/src/cache/memcache.rs:73-93 | over every run, the size stays within the capacity if and only if no `set` brings a key without a permanent value while at least `capacity` permanent values are in use, which the calls alone decide |
| `MemCache.CapacityKeptIffRoom` | rszero/src/cache/memcache.rs:76-89 | the same in terms of the cache: if and only if no `set` of a new key finds the cache full of entries that never expire |
| `MemCache.OutgrowsIffAsksTooMuch` | rszero/src/cache/memcache.rs:76-89 | the two conditions agree for every cache within its capacity |
| `MemCache.CapacityIsNoBound` | rszero/src/cache/memcache.rs:73-93 | the capacity alone bounds nothing: for every capacity a run without expiry times reaches every size |
| `RateLimit.TenantRateLimiter.constructor` | examples/tenant-management/src/middleware.rs:44-48 | no windows |
| `RateLimit.TenantRateLimiter.Check` | examples/tenant-management/src/middleware.rs:51-69 | the answer and the new window of the tenant; no other window changes |
| `RateLimit.AnyMinuteAdmitsFew` | examples/tenant-management/src/middleware.rs:51-69 | over every request sequence any sixty seconds admit at most 2 * quota - 1 requests of a tenant, and none for quota 0 |
| `RateLimit.BoundIsSharp` | examples/tenant-management/src/middleware.rs:51-69 | for every quota but 0, negative ones as the code casts them, there is a sequence that reaches the bound |
| `RateLimit.WindowIs` | examples/tenant-management/src/middleware.rs:51-69 | a window is told by the request that began it, the first one or the first after the sixty seconds of the window before: it ends sixty seconds later, and counts the requests allowed since |
| `RateLimit.AllowedIff` | examples/tenant-management/src/middleware.rs:51-69 | a request is allowed if and only if its window has allowed fewer than the quota; refused requests neither count nor move the window |
| `RateLimit.NewWindowAllows` | examples/tenant-management/src/middleware.rs:51-69 | the request that begins a window is allowed, whatever was refused before, unless the quota is 0 |
| `RateLimit.NegativeQuotaAdmitsMany` | examples/tenant-management/src/middleware.rs:51-69 | with a negative quota there is a sequence of which at least 2^32 - 1 requests are admitted in sixty seconds |
| `RateLimit.OthersDoNotMatter` | examples/tenant-management/src/middleware.rs:51-69 | the window of a tenant is what it would be without the other tenants |
| `RateLimit.AnswersAlone` | examples/tenant-management/src/middleware.rs:51-69 | and so is every answer |

## Left out

- CanReturnIff: the lock is taken in any order there, so that a caller it says can return may have to wait for ever in the queue; `SingleFlightQueue` has the order.
- Which characters outside ASCII are letters or numeric: the two classes are constants without a value, so the theorems hold for whatever they are.
- Texts of error messages: parse errors keep their kind and line, other errors only that there is one.
- Single-flight panics, cancelled tasks and channel lag: a task runs to the end of its step; progress is that a caller can return (`EveryoneCanReturnIff`), not that the scheduler lets it.
- Sagas whose actions interfere with each other or with other sagas: a world is changed by one saga at a time.
- Saga ids, timestamps and the JSON column of journal records; `list_sagas`.
- SQL, Redis, RabbitMQ, tokio and the async locks: each is an atomic step on a table, a key, a queue or a clock.
- Inserts and queries that fail, in the interleaved runs: they leave the table and end the call with an error, so they are no step.
- `created_at` ties in the outbox: rows are in the order of their insertion.
- The overflow of `retry_count + 1` at 2^31, reached only with limits that `FailedIsFinalIff` rules out.
- Lock-level interleavings inside one breaker operation, and several clock readings within one: each operation is atomic and reads the clock once.
- Floating-point rounding of the failure rate and a threshold that is not a number: the rate is a real number.
- 64-bit overflow of the breaker's counters, and a clock younger than the window.
- Times to live beyond the range that Redis accepts, and clients of the lock key that use other commands.
- `rszero/src/cache/redlock.rs`: the same compare-and-delete protocol on several servers.
- Calendar arithmetic of chrono, leap seconds and daylight saving: day of the month and month are arbitrary functions of the day, and the clock is monotone.
- Concurrent use of the memory cache: check and insert are two steps in the source, and the size bound is about one caller at a time.
- Memory, connection pools, scatter queries, dashboards, metrics, tokens, uploads, code generation and configuration: input and output or single branches.

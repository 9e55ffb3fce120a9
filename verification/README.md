# Haruki Cloud: a verified model of its state machines and parsers

This project models, in Dafny, the parts of Haruki Cloud whose correctness depends on more than one
function at a time, and proves what they promise over all inputs and all runs.

- **Bulk create** (`bulk_create.dfy`). ent's `CreateBulk.Save` for CommandLog and ImageModCache: one
  mutator per builder, each calling the next from inside itself, hooks around each, a single batch
  insert at the innermost level, ids and `done` flags written on the way back. A hook is any function of
  the mutation that forwards or not and turns the answer it gets into its own. Save is all-or-nothing
  exactly when the hooks of every builder it comes to answer success just when what they wrap did.
- **Hook wrapping** (`hooks.dfy`). The wrapping loops of `withHooks` and `withInterceptors` build the
  right-nested composition; a missing hook means nothing runs.
- **Keyset cache** (`keyset_cache.dfy`). The trust keyset file behind a check throttle and a
  modification time, with a writer that may change the file between the look and the read. Answers
  are never older than the reload interval, provided modification times do not repeat; without that, a
  keyset is missed exactly when the cache holds other bytes under the file's modification time.
- **Importer** (`importer_db.dfy`, `importer_bindings.dfy`, `importer_defaults.dfy`, `importer.dfy`).
  The legacy binding importer over users, accounts, bindings and defaults, with a database that may
  refuse, lose replies or let another writer win: convergence, idempotence, exact insertion counts,
  contiguous display orders, independence of map order, and full coverage of the pipeline.
- **Response cache** (`json_text.dfy`, `response_cache.dfy`). Cached bytes carry their own status: a
  JSON encoder and a full parser, their round trip, and transparency of the cache over every
  interleaving of requests.
- **Configuration values** (`text.dfy`, `config_lists.dfy`, `player_frames.dfy`, `decimal.dfy`). The
  list splitters, the ordered Noise key list and its printer, the map form, and the player frame
  overrides with lexical path cleaning.
- **Mutation records** (`mutation.dfy`). What a sequence of Set/Add/Append/Clear/Reset calls amounts
  to, the by-name interface, and the update builder.

Objects the source updates in place are classes here (`Bulk`, `Mutation`, `Node`, `Driver`,
`KeysetSource`, `Redis`, `ImportCounts`, `DefaultBindingImport`, `RequestsRankingMutation`, ...); their
methods are proved against functions on values, and the lemmas are about those functions. The outside
world is a parameter everywhere: which database operations fail and how, which ids are drawn, when a
run is cancelled, what a file's writer does and when, which requests complete in between, and the
order in which maps yield their keys. All results hold for every value of these parameters.

## Findings

- A hook that forwards and then returns an error makes `CreateBulk.Save` report failure although the
  rows are in the table (`BulkCreate.LateFailureBreaksIt`); one that hides an error leaves mutations
  done that have no row (`BulkCreate.SwallowedErrorBreaksIt`). A hook can be used beside honest ones
  if and only if it answers success just when what it wraps did, or refuses
  (`BulkCreate.HonestExactly`).
- If the keyset file is rewritten without a new modification time, the old bytes are served until it
  is written again (`KeysetCache.ReusedMtimeServesStaleBytes`, `KeysetCache.StaleForever`);
  `KeysetCache.StaleExactly` says exactly when a new file is missed.
- A cacheable answer whose status lies outside 100..599 is replayed as a 200
  (`ResponseCache.StatusRoundTrip` gives the exact condition).
- `Set` on a mutation after `Clear` leaves the field both set and cleared; the update builder avoids
  this, but `Add` after `Clear` leaves an increment pending on a cleared field, in the builder too.
  The exact call sequences are given by `Mutation.SetAndClearedExactly`,
  `Mutation.AddedAndClearedExactly` and `Mutation.BuilderAddedAndClearedExactly`.
- The last test of `validatePlayerFrameParts` can never decide (`PlayerFrames.NotBareRoot`).
- The map form of an option list refuses a blank item that the ordered key list skips, as in
  "a=1, ,b=2" (`ConfigLists.BlankItemExample`); otherwise the two agree
  (`ConfigLists.MapAgreesWithKeyList`).
- When no operation breaks, an import record fails exactly when its user is new and the importer's own
  insert at the first free of five random ids does not go through: all five ids are taken, or another
  writer inserts the user first (`ImporterBindings.RecordFailsExactly`). In the second case the user
  is there afterwards, but the resolver does not look again
  (`ImporterBindings.UserRaceFailsRecord`); losing the race for an account is harmless.

## Model

| member | source | states |
|---|---|---|
| `BulkCreate.Bulk.Save` | database/bot/commandlog_create.go:274-330 | with any hooks, BatchCreate runs at most once and only when every hook chain forwards and every check passes, with all specs in builder order; the rows added are complete and valid, carry the ids the mutations end up with, and unless a hook edits them keep each column the caller gave and have the default for exactly the others; without hooks the error is that of the first bad column or of the database; all-or-nothing with honest hooks |
| `BulkCreate.Bulk.RunChain` | database/bot/commandlog_create.go:324-328 | entering the first mutator yields the plan's answer, rows in builder order, a node for each builder entered, and each done mutation's id equal to its node's, after an insert its row's |
| `BulkCreate.Bulk.RunHooks` | database/bot/commandlog_create.go:317-320 | any hooks of one builder around its innermost mutator: one that does not forward stops everything inside, and whatever the others answer, what happened inside stays |
| `BulkCreate.Bulk.Core` | database/bot/commandlog_create.go:286-316 | check, spec, next mutator or insert, then id and done exactly when that answered success |
| `BulkCreate.Bulk.WriteBack` | database/censor/imagemodcache_create.go:223-230 | after success the mutation is done and its id points into its node, which after an insert has its row's id, also when the caller chose the id |
| `BulkCreate.Bulk.FillDefaults` | database/bot/commandlog_create.go:281-284 | defaults of all builders are in place before any mutator runs |
| `BulkCreate.DefaultsFillIn` | database/bot/commandlog_create.go:141-165 | a default is filled in for exactly the columns the caller left unset; what the caller gave stays |
| `BulkCreate.CheckMeaning` | database/bot/commandlog_create.go:168-214 | the check passes exactly when every required column is there and accepted by its validator, and otherwise names the first that is not |
| `BulkCreate.AnswerMeaning` | database/bot/commandlog_create.go:274-330 | with honest hooks Save succeeds if and only if the rows went in, and is all-or-nothing |
| `BulkCreate.CoreAnswerMeaning` | database/bot/commandlog_create.go:286-316 | if the hooks after builder i are faithful, its mutator succeeds if and only if the insert happens |
| `BulkCreate.HooksCompose` | database/bot/commandlog_create.go:317-320 | running a builder's hooks from the outside in is calling the composition that the wrapping loop builds, the one of a single create |
| `BulkCreate.HookAnswerMeaning` | database/bot/commandlog_create.go:317-320 | a chain of honest hooks answers success if and only if all forward and what they wrap does |
| `BulkCreate.AllOrNothingExactly` | database/bot/commandlog_create.go:274-330 | with any hooks, Save is all-or-nothing if and only if at every builder it comes to the hooks answer success just when they all forwarded and what they wrap did |
| `BulkCreate.HonestExactly` | database/bot/commandlog_create.go:317-320 | every Save that uses a hook beside honest ones is all-or-nothing if and only if the hook is honest: it answers success just when what it wraps did, or refuses |
| `BulkCreate.LateFailureBreaksIt` | database/bot/commandlog_create.go:311-320 | one builder and one late-failing hook: the row is in, the mutation is done, Save reports an error |
| `BulkCreate.SwallowedErrorBreaksIt` | database/bot/commandlog_create.go:296-320 | the second builder fails its check behind a hook that hides the error: nothing is inserted, the first mutation is done, Save reports success |
| `Hooks.WithHooks` | database/bot/ent.go:502-533 | the loop builds h0(h1(...(exec))); with no hooks exec runs directly; with any missing hook nothing runs |
| `Hooks.WithInterceptors` | database/bot/ent.go:568-581 | the same composition around a query |
| `Hooks.ComposeAppend` | database/bot/client.go:260-264 | wrapping with a concatenation is wrapping with the second list, then the first |
| `Hooks.Client.Use` | database/bot/client.go:260-264 | successive Use calls behave as one call with the concatenation, whatever is wrapped |
| `Hooks.VetoCutsOff` | database/bot/ent.go:502-533 | a hook that answers the same whatever it wraps makes all later hooks and the operation irrelevant |
| `Hooks.EditsReachOperation` | database/bot/ent.go:508-514 | the operation runs on the mutation the hooks hand on |
| `Hooks.WrongTypesAreRefused` | database/bot/ent.go:508-533 | a mutation of another type keeps the operation from running; an answer of another type is an error although it ran |
| `KeysetCache.KeysetSource.LoadBody` | api/trust/keyset.go:71-100 | one call, with interleaved writes of any kind, is the step of the model and answers only valid envelopes; with fresh modification times it keeps the invariant and answers bytes the file held within the reload interval |
| `KeysetCache.LoadStep` | api/trust/keyset.go:71-100 | the invariant is inductive: if the file's modification time equals the remembered one, the body equals the content |
| `KeysetCache.BoundedStaleness` | api/trust/keyset.go:71-100 | after any run, a successful call answers bytes the file held during the call or less than 30 s before it |
| `KeysetCache.PicksUpNewFile` | api/trust/keyset.go:25-27 | a valid file in place for a full interval is what an undisturbed call answers |
| `KeysetCache.FailureIsCurrent` | api/trust/keyset.go:81-96 | a call fails only because of the file as that call found it |
| `KeysetCache.AnswersAreValid` | api/trust/keyset.go:92-99 | after any run with any writer, an answer has passed the check of the envelope |
| `KeysetCache.BadFileFails` | api/trust/keyset.go:81-96 | when a file has been in place for a full interval, an undisturbed call fails if it is missing, and rejects it if it is invalid unless the cache holds other bytes under its modification time |
| `KeysetCache.FailuresAreReported` | api/trust/keyset.go:79-91 | a failed look or read that a call comes to is reported, whatever was cached |
| `KeysetCache.QuietInterval` | api/trust/keyset.go:69-78 | for 30 s after a successful check every call answers the same bytes and nothing is looked at, whatever is done to the file and over any run |
| `KeysetCache.StaleExactly` | api/trust/keyset.go:71-100 | after any run with any modification times, when a valid file has been in place for a full interval, it is what is answered, and the staleness bound holds, if and only if the cache does not hold other bytes under the file's modification time |
| `KeysetCache.StaleForever` | api/trust/keyset.go:86-88 | if it does, and the file is left alone, every later call answers the old bytes |
| `KeysetCache.ReusedMtimeServesStaleBytes` | api/trust/keyset.go:86-88 | such a run: a rewrite that keeps the modification time is never noticed |
| `ImporterDb.Database.ResolveUser` | internal/identity/resolver.go:39-75 | query, then up to five inserts with random ids, retrying only on constraint errors |
| `ImporterBindings.ResolveBindingGameAccount` | cmd/importer/main.go:251-267 | query, create, and query again after losing a race, as one state change |
| `ImporterBindings.CreateBindingIfMissing` | cmd/importer/main.go:269-289 | exists check, display order by counting, insert; a constraint error counts as skipped |
| `ImporterBindings.ImportBindingRecord` | cmd/importer/main.go:226-244 | one record as one state change with its outcome |
| `ImporterBindings.ImportItemEffect` | cmd/importer/main.go:226-244 | a record keeps the tables consistent, adds no other pair, is present unless it failed, and an inserted record adds exactly its own binding |
| `ImporterBindings.AccountRaceIsHarmless` | cmd/importer/main.go:259-262 | when no operation breaks, the account is resolved, also after losing the race for it |
| `ImporterBindings.CreateUserExactly` | internal/identity/resolver.go:55-73 | whatever the database does, a user is created if and only if it is new, the insert at the first free id drawn goes through, and the attempts before it were answered by a constraint error |
| `ImporterBindings.UserRaceFailsRecord` | internal/identity/resolver.go:55-73 | another writer inserting the user first makes the record fail although the user is there |
| `ImporterBindings.RecordFailsExactly` | cmd/importer/main.go:226-289 | when no operation breaks, with other writers or without, a record fails if and only if its user is new and no insert of the importer at the first free id drawn goes through |
| `ImporterBindings.PlatformMeaning` | cmd/importer/main.go:80-89 | exactly the ids of the form 64 hexadecimal digits, underscore, digits are on the platform qqbot, all others on qq |
| `ImporterBindings.CancelledExactly` | cmd/importer/main.go:192-197 | a run over records is cancelled exactly when a look before one of them finds it stopped |
| `ImporterBindings.NoneFailExactly` | cmd/importer/main.go:226-289 | when no operation breaks and nobody cancels, no record fails exactly when every record finds its user or can create it |
| `ImporterBindings.FreshRunIsClean` | internal/identity/resolver.go:55-73 | on a working database with fresh ids no record fails |
| `ImporterBindings.ImportBindings` | cmd/importer/main.go:161-178 | the five files in order, stopping at a load error or cancellation |
| `ImporterBindings.ImportBindingFile` | cmd/importer/main.go:180-206 | a missing file is passed over, an unreadable one stops the run, otherwise every record is imported in order |
| `ImporterBindings.ImportCounts.Record` | cmd/importer/main.go:215-224 | one counter per outcome |
| `ImporterBindings.FilesAreItems` | cmd/importer/main.go:161-206 | importing files is importing their records one after the other, up to the first unreadable file |
| `ImporterBindings.CountersConserved` | cmd/importer/main.go:192-203 | total = inserted + skipped + failed, plus one exactly when cancelled; a dry run counts all as inserted and writes nothing |
| `ImporterBindings.RunKeeps` | cmd/importer/main.go:161-289 | whatever fails and whenever it stops, a run keeps unique keys and only adds rows |
| `ImporterBindings.CleanRun` | cmd/importer/main.go:161-289 | a run without failed records leaves every pair of its files and no other new pair, and reports as inserted exactly the number of distinct absent pairs |
| `ImporterBindings.CleanRunRows` | cmd/importer/main.go:192-289 | the bindings added are those of the first record of each absent pair, with its visibility, in file then record order |
| `ImporterBindings.NothingLeftToDo` | cmd/importer/main.go:226-289 | once all pairs are there a run changes nothing, even when it fails or is cancelled |
| `ImporterBindings.Converges` | cmd/importer/main.go:161-289 | after any number of broken runs one clean run leaves exactly one binding per pair, and repeating it changes nothing |
| `ImporterBindings.AppendingKeepsContiguous` | cmd/importer/main.go:292-300 | numbering by counting keeps a user's numbers 0..m-1 without repeats |
| `ImporterBindings.ItemAddsItsRow` | cmd/importer/main.go:226-289 | a record adds at most one binding, and that is the one it asks for, whatever its outcome |
| `ImporterBindings.AddedInRecordOrder` | cmd/importer/main.go:161-206 | in any run, whatever fails and however it ends, the bindings added belong to records at strictly increasing positions |
| `ImporterBindings.DisplayOrdersStayContiguous` | cmd/importer/main.go:269-300 | contiguous display orders stay contiguous over any run; earlier bindings stay as they are, and the new ones are numbered after them in file order and then record order, also in runs with failed records, races or cancellation |
| `ImporterDefaults.GroupBindingsByUser` | cmd/importer/main.go:379-391 | per user, the bindings with an account, in loading order |
| `ImporterDefaults.FirstBindingByServer` | cmd/importer/main.go:432-440 | per server the first binding, and no other server |
| `ImporterDefaults.FirstOnIsFirst` | cmd/importer/main.go:432-440 | the binding chosen for a server is the first one there in loading order |
| `ImporterDefaults.InfosInOrder` | cmd/importer/main.go:379-391 | a user's bindings are grouped in the order in which they were loaded |
| `ImporterDefaults.ChooseGlobal` | cmd/importer/main.go:421-426 | the binding on the first server of the priority list that has one |
| `ImporterDefaults.GlobalByName` | cmd/importer/main.go:302-304 | the global choice is the only binding, or the first on jp, else on cn, tw, en, kr |
| `ImporterDefaults.DefaultBindingImport.Create` | cmd/importer/main.go:393-411 | one attempt, counted once, as inserted exactly when the row was added if replies are truthful; the row is added only if missing, and is there afterwards if nothing fails |
| `ImporterDefaults.DefaultBindingImport.ImportUser` | cmd/importer/main.go:413-430 | exactly two attempts for a single binding, else one per server plus one for the global choice; other users untouched; the closed form if nothing fails |
| `ImporterDefaults.SetDefaultBindings` | cmd/importer/main.go:330-377 | in every visiting order the table ends as one closed form; with failures rows are only added and only permitted ones; inserted, skipped and failed add up to the attempts of all users, and inserted is the number of rows added; it is cancelled exactly when a look before a user finds it stopped |
| `ImporterDefaults.GlobalChoiceExists` | cmd/importer/main.go:302-304 | a user on imported regions has a global choice, one of their bindings on their best server |
| `ImporterDefaults.Coverage` | cmd/importer/main.go:321-329 | every such user has a global default and one for each of their servers |
| `ImporterDefaults.AddedRowsAreOwn` | cmd/importer/main.go:393-440 | every row added points to a binding of the same user, on the scope's server outside the global scope |
| `ImporterDefaults.SecondPassAddsNothing` | cmd/importer/main.go:329 | a second pass over the same bindings in any loading order adds nothing |
| `Importer.ListBindings` | cmd/importer/main.go:339-344 | all bindings with their account's server, each once, in no particular order |
| `Importer.RunImporter` | cmd/importer/main.go:761-781 | it fails exactly when a file is unreadable, it is stopped at a record or at a look before a user, or the bindings cannot be listed; otherwise all records are counted, as inserted exactly the distinct absent pairs if none failed and nobody else wrote, and on a working database none fails exactly when each finds or can create its user; in any run rows of all four tables are only added, every default row added points to a binding of that user on the scope's server, and if all default rows pointed to their users' bindings before, all do; after an undisturbed run of both targets every user in the table has a default for the server of each of their accounts and, on imported regions, a global one, every record has exactly one binding, and any later run over the same files changes nothing |
| `Importer.CalmRunEndsWell` | cmd/importer/main.go:761-781 | on a working database and without cancellation a run fails only because of an unreadable file |
| `Importer.OwnStaysOwn` | cmd/importer/main.go:393-440 | as rows are only added, a default row that pointed to one of its user's bindings still does |
| `Importer.AllCovered` | cmd/importer/main.go:413-430 | coverage of every user with bindings, not only those of the files |
| `Importer.AllOwn` | cmd/importer/main.go:393-440 | the rows a pass adds point to the user's own bindings, as they are in the tables |
| `Importer.ClosedIsFinished` | cmd/importer/main.go:329 | after a clean run no default is missing, in whatever order the bindings are loaded next time |
| `JsonText.RoundTrip` | internal/jsonutil/json.go:31-33 | whatever is encoded is valid JSON and parses back to itself |
| `JsonText.ParseUndoesEncode` | internal/jsonutil/json.go:47-57 | parsing an encoded value in any context gives the value and the rest |
| `JsonText.QuoteRoundTrip` | internal/jsonutil/json.go:31-33 | every string survives escaping and unescaping |
| `ResponseCache.StatusRoundTrip` | api/helper.go:208-231 | for every message the status of a cached status answer is recovered if and only if it is in 100..599 |
| `ResponseCache.ResponseMapStatus` | api/helper.go:23-29 | a cached 200 is always read back as 200, whatever its data |
| `ResponseCache.DataFirstIsOk` | api/helper.go:219-223 | any body whose first key is "data" counts as 200 |
| `ResponseCache.MapCarries` | api/helper.go:23-29 | a response map parses to an object with exactly its data, message and status |
| `ResponseCache.EnvelopeCarries` | api/helper.go:208-215 | a status envelope parses to an object with its status, its message and null data |
| `ResponseCache.ValidEntryMeaning` | api/helper.go:163-170 | an entry is accepted if and only if it is a JSON object or null |
| `ResponseCache.RunsAreTransparent` | api/helper.go:149-280 | over all runs no entry is rejected and every hit repeats an earlier live answer for its key, byte for byte |
| `ResponseCache.HitCarriesFetch` | api/helper.go:149-280 | over all runs a hit carries the data of an earlier fetch for its key with status 200, or the status and message of an earlier cached status answer |
| `ResponseCache.HitIsTransparent` | api/helper.go:149-171 | in every reachable store a hit is such a repetition |
| `ResponseCache.CompleteKeepsInv` | api/helper.go:235-280 | completing a request keeps every entry tied to an answer given earlier |
| `ResponseCache.AnswerIsCached` | api/helper.go:258-280 | a written answer is repeated until its time to live has passed and not after, unless its key is overwritten |
| `ResponseCache.Redis.WithCacheOptions` | api/helper.go:235-264 | one request with others completing meanwhile: a hit is transparent and carries what was said; a miss sends the fetched data, or the status and message, and stores just that for its time to live; a read error is a 500 |
| `ResponseCache.Redis.CacheQuery` | api/helper.go:149-171 | exactly when a query is a miss, a hit on the stored bytes, a read error or a rejected entry |
| `ResponseCache.Redis.CachedJSONResponse` | api/helper.go:77-104 | the body sent parses to the data, message and status given, and the same bytes are stored for the time to live |
| `ResponseCache.Redis.SendStatusResponse` | api/helper.go:266-280 | the body sent parses to the status and message given and null data; it is stored for the time to live, or not at all without one |
| `ConfigLists.SplittersAgree` | config/config.go:276-324 | the option list is the name list without its empty entries, and surrounding white space does not matter |
| `ConfigLists.NamesArePositional` | config/config.go:299-324 | one name per separator plus one, each the trimmed text at its position, and the text is restored from them |
| `ConfigLists.EnvStringSlice` | config/config.go:276-297 | the destination holds the non-blank items, or is unchanged when the value is blank or bad |
| `ConfigLists.EnvEndpointNames` | config/config.go:301-324 | the destination holds all entries in place, is emptied by a blank value, and is unchanged when unset or bad |
| `ConfigLists.EnvDurationSlice` | config/config.go:114-132 | the i-th non-blank entry gives the i-th duration, or one bad entry leaves the destination alone |
| `ConfigLists.EnvNoiseKeys` | config/config.go:332-348 | the ordered key list is installed only when every entry is complete; key i is what item i reads as, and an error names an item that reads as no key |
| `ConfigLists.ParseEntryMeaning` | config/config.go:362-370 | an item reads as a key exactly when it has an '=', is cut at the first one, and both trimmed sides are not blank |
| `ConfigLists.ParseNoiseKeyList` | config/config.go:352-374 | blank items are skipped, each other item is cut at its first '=' |
| `ConfigLists.EnvStringMap` | config/config.go:134-163 | the map is installed only when every entry is complete; on an error the destination is unchanged |
| `ConfigLists.KeyListRoundTrip` | config/config.go:332-378 | a key list, the empty one too, printed with any separators, padding and blank items reads back as the same list in the same order |
| `ConfigLists.MapAgreesWithKeyList` | config/config.go:134-163 | the map parser accepts exactly what the ordered parser accepts without blank items, and gives its fold with later entries winning |
| `ConfigLists.FoldMeaning` | config/config.go:134-163 | in the map each id has the value of its last entry, and there are no other ids |
| `ConfigLists.BlankItemIsRefused` | config/config.go:145-152 | any printed list with a blank item is read by the ordered parser and refused by the map parser |
| `ConfigLists.BlankItemExample` | config/config.go:145-152 | for example "a=1, ,b=2" |
| `PlayerFrames.CleanFixedPoint` | config/player_frames.go:61 | a relative path not starting with ".." is clean if and only if it is "." or all its elements are plain |
| `PlayerFrames.ValidAssetMeaning` | config/player_frames.go:59-66 | an asset path is accepted if and only if it is static_images followed by plain elements, without the forbidden characters |
| `PlayerFrames.NotBareRoot` | config/player_frames.go:61 | the final comparison of the code is redundant |
| `PlayerFrames.ValidUserIdMeaning` | config/player_frames.go:38-41 | accepted user ids are the decimal numerals without leading zero that fit 64 bits |
| `PlayerFrames.KeyIsAccount` | config/player_frames.go:42 | the concatenated key identifies the account |
| `PlayerFrames.ValidateParts` | config/player_frames.go:59-67 | in every visiting order, success means that each of the six parts is an asset, and an error gives the name of one that is not |
| `PlayerFrames.ValidatePlayerFrameOverrides` | config/player_frames.go:30-57 | accepts exactly valid entries for pairwise different accounts; an error points at the first unacceptable entry and says truly what is wrong with it |
| `Mutation.PendingSet` | database/bot/mutation.go:2269-2393 | the pending value is the last Set not followed by Set, Reset or Clear |
| `Mutation.PendingAdded` | database/bot/mutation.go:2269-2393 | the pending increment collects the Adds since the last Set, Reset or Clear, in order |
| `Mutation.PendingCleared` | database/bot/mutation.go:2375-2393 | a field is cleared if and only if some Clear is not followed by a Reset |
| `Mutation.SetAndClearedExactly` | database/bot/mutation.go:2326-2393 | a field is both set and cleared if and only if a Clear without later Reset is followed by a Set that nothing settles later |
| `Mutation.AddedAndClearedExactly` | database/bot/mutation.go:2358-2393 | an increment is pending on a cleared field if and only if a Clear without later Reset is followed by an Add that nothing settles later |
| `Mutation.CallsCommute` | database/bot/mutation.go:2269-2393 | reordering calls of different fields does not matter |
| `Mutation.RequestsRankingMutation.AddCounts` | database/bot/mutation.go:2358-2364 | the increment is the 64-bit sum with wrap-around |
| `Mutation.RequestsRankingMutation.IncrementsAreSums` | database/bot/mutation.go:2302-2364 | the pending increment is the 64-bit sum of the Adds since the field was last settled |
| `Mutation.RequestsRankingMutation.ByNameAgrees` | database/bot/mutation.go:2428-2553 | names listed and values and increments looked up agree, and both say what the calls mean |
| `Mutation.RequestsRankingMutation.SetField` | database/bot/mutation.go:2468-2486 | the typed Set, or an unknown-name or wrong-type error that changes nothing |
| `Mutation.RequestsRankingMutation.AddField` | database/bot/mutation.go:2517-2535 | the typed Add, or an error that changes nothing |
| `Mutation.RequestsRankingMutation.ClearField` | database/bot/mutation.go:2556-2563 | the typed Clear for the nullable field only |
| `Mutation.RequestsRankingMutation.ResetField` | database/bot/mutation.go:2567-2577 | the typed Reset, or an error that changes nothing |
| `Mutation.CommandManifestMutation.AppendCommandPrefixes` | database/bot/mutation.go:788-790 | appended items are concatenated in call order |
| `Mutation.CommandManifestMutation.AppendedCommandPrefixes` | database/bot/mutation.go:793-798 | reports the concatenation of the Appends since the field was settled, if it is not empty |
| `Mutation.CommandManifestMutation.ClearCommandAdditionalParams` | database/bot/mutation.go:1016-1020 | drops the value and the appended items and marks the field cleared |
| `Mutation.BuilderNeverSetsAndClears` | database/bot/requestsranking_update.go:30-76 | runs of the update builder never leave a field both set and cleared |
| `Mutation.MutationMaySetAndClear` | database/bot/mutation.go:2326-2380 | the shortest such sequence of the mutation: Clear, Set |
| `Mutation.BuilderAddedAndClearedExactly` | database/bot/requestsranking_update.go:51-76 | the builder leaves an increment on a cleared field if and only if a Clear is followed by an Add, with no Set after the Clear and no Clear after the Add |
| `Mutation.BuilderMayClearAndAdd` | database/bot/requestsranking_update.go:67-76 | the shortest such sequence of the builder |
| `Mutation.RequestsRankingUpdate.SetCounts` | database/bot/requestsranking_update.go:52-56 | Reset then Set: the value is pending and the field is not cleared |

## Left out

- SQL generation and drivers: an insert is atomic and may fail; how a Set and an Add on one column are combined is not claimed. Field length validators of the importer's tables appear only as refused operations.
- BulkCreate.Bulk.Save: builders are distinct, own their mutations and have not been saved before, as the client's Create makes them; hooks that hand on a different mutation or forward more than once are not modelled; the driver reports an id for every row, and its integer type is not modelled; what a stopped run leaves in the mutations' fields is not stated.
- The mutator closures of Save are one recursive method instead of an array of function values; BulkCreate.HooksCompose ties its hooks to the composition.
- Hooks are total functions of state and mutation; contexts and panics are not modelled.
- The importer's two database clients are one object; binding and account ids are increasing; identities are compared as given. Alias targets, configuration, logging and process exit are left out.
- ImporterBindings.CleanRun: counts insertions only when nobody else writes, because another writer's row is reported as skipped.
- ImporterBindings.Converges: starts from tables in which every binding's user is known, because a random new id could otherwise adopt orphaned bindings.
- The names of the export files and the texts of messages are constants of the model, as they are of the code.
- A concurrent writer of the importer's tables inserts only the row the importer is about to insert, numbered as the importer would.
- KeysetCache.BoundedStaleness: assumes a fresh modification time per write and one clock for writer and reader; reads are atomic; the envelope check is an arbitrary predicate.
- Text is a sequence of Unicode characters; invalid UTF-8 and the JSON library's nesting limit are not modelled. The cache key is given.
- JSON forms of the configuration values are arbitrary decoders; error texts keep only what distinguishes them.
- Path cleaning is the element-stack algorithm, not the byte buffer of the standard library.
- Old-value queries, predicates and edges of mutations, and the scalar fields of CommandManifest, which follow the same pattern.
- Slices handed to Append are copied; sharing of a backing array is not modelled.

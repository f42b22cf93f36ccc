# Verified model of an OAuth grant service and its token stores

This Dafny project models the OAuth 2.0 proxy of mcp-runtime-go and proves what its tokens, codes,
stores and filters promise. `dafny verify dfyconfig.toml` checks everything.

**The grant service as a machine.** `ServiceMachine` turns every region that the service runs under
one lock into one step: consuming a code, checking it, inserting a token, saving, unlocking, and the
separate steps of a purge, which saves its copy of the token map with no lock held. A run is any
sequence of enabled steps, with any number of exchanges and purges in flight, clock ticks, failing
Saves and restarts. `ServiceHistory` adds the history of a run, `ServiceInvariants` the inductive
invariant, `ServiceTheorems`, `ServiceExchanges`, `ServiceLifetimes`, `ServicePurges` and `ServiceExamples` what follows from
it. `Service`
is the same service as an object that updates its maps in place; each method is proved to perform
machine events (`SequentialRuns`), so the theorems about runs are about that code.

**The stores.** `FileSystem` is a file system that can lose power: file bytes and directory updates
are durable only when synced, and a power loss keeps any subset of the pending directory updates.
`JsonSave` is the protocol of a JSON Save on it (temporary file, sync, rename, directory sync), and
`JsonStore` the store itself. `SqliteStore` is the transactional store with whole-second expiries and
a write-ahead log, `Migration` the move from one to the other, and `StoreRefinement` shows that both
stores meet the store interface on which the service is modelled.

**The anonymous MCP mode.** `McpAcl` decides which request bodies are admitted, `ToolsFilter` filters
decoded JSON trees, `SseFilter` whole response bodies, `EventStream` says what clients of a filtered stream see, `PathClean` cleans request paths and `Proxy`
decides what is forwarded where. `ProxyAccess` puts the proxy in front of the service.

**Smaller parts.** `TokenMaps` (expiry maps and the two ways to persist them), `Base64Url` and `Pkce`,
`Grant` (the decisions of section 4.1 of RFC 6749 and sections 4.2 to 4.6 of RFC 7636), `RedirectUri`,
`AuditRedaction`, `Splitting`, `Texts`, `Json`, `Wrappers`. Lemmas whose names end in Judged, SpelledOut or
Decides state what the decision functions decide with nothing but the request, the source's constants and the
parameters, so that these functions are not their own specification.

## Assumptions

- The clock never runs backwards. Times and expiries are reals; the float64 values of the program are
  exact for whole seconds up to 2^53, and nothing overflows an int64.
- Generated codes and tokens are fresh, and the hash of a fresh token is fresh: `Allowed` in
  `ServiceHistory` asks this of the events Issue and Insert, and only the theorems about runs use it.
- SHA-256 is an arbitrary function with 32-byte results. Constant-time comparison is equality.
- Parsing a printed JSON value gives it back; printed text is not empty and has no LF or CR; a text
  with a line that starts with `data: ` is not JSON (RFC 8259 allows no raw line break in a string).
- A rename over the token file and the creation of the temporary file reach the disk whole. File bytes
  that were not synced may be anything after a power loss.
- SQLite commits are all or nothing; a power loss can undo the newest commits, but none that a
  checkpoint has moved into the database file.

## What turned out not to hold, and exactly when it does

- *Memory equals the store.* No: a purge can save a copy taken before a token was issued
  (`StaleCopyLosesToken`). The store's content is known exactly in every state (`StoreContentExact`),
  equals memory exactly when no token confirmed since the stored copy is still unexpired
  (`StoreEqualsMemoryIff`), and always does when no exchange saves between a purge's copy and the Save of
  that copy (`UninterruptedPurgesKeepStoreEqual`), as when operations run one after another.
- *Purging changes no unexpired entry of what is persisted.* For the same reason no; it does not exactly
  when the store is current (`PurgesChangeStoreIff`). It never changes an answer within one life.
- *A token whose issuance failed is never accepted.* Not across a restart when the JSON Save failed
  after its rename (`TornSaveRevivedByRestart`). `ValidAfterRestartIff` says exactly which tokens a
  restart accepts, `FailedSaveReviveOrLose` what a power loss can do. SQLite has no such Saves.
- *A failing JSON Save leaves the file alone.* Only if it fails before its rename: `TokenStore.Save`
  states both halves, and `AfterRenameEitherComesBack` shows that after the rename a power loss may
  bring back either content.
- *No token outlives its code's issue by more than the two lifetimes.* The exchange reads the clock
  twice, so it can (`LateMintOutlivesCode`); `TokenOutlivesCodeIff` gives the exact condition.
- *The migration keeps every unexpired token valid.* Up to the last fraction of a second of a
  fractional expiry (`EveryTokenIsFound`). After a failure past the Save, a second attempt is refused
  until the saved tokens have expired (`RetryProceedsIff`).
- *A migration that reports success has lost nothing.* Not if another connection blocked its checkpoint:
  the PRAGMA then returns a row and no error, and Checkpoint drops the row. `MigrateJSONToSQLite` and
  `BusyMoveIff` give the exact condition.
- *Server-sent `data:` payloads are filtered* (docs/ARCHITECTURE.md:64-66). The code rewrites single
  lines, taken between LFs, that start with `data: ` and parse. Clients read streams differently: the space may be
  missing, an event may spread over several data lines, a CR ends a line, and a byte order mark may come
  first. `ClientSeesIff` says exactly when a client can still see a tool that is not public, and
  `EventLeftAlone` gives streams where it does; the model follows the code.
- *How a path is spelled does not matter.* It does when one spelling holds `@`, `%2e` or `%2E` and the
  other does not (`SpellingMattersIff`).
- *Every accepted code challenge can be met.* Issuance accepts 43 to 128 characters, but only 43 ever
  match (`LongChallengeNeverExchanged`).

## Model

| member | source | states |
|---|---|---|
| ServiceInvariants.InvStep | internal/oauthproxy/service.go:82-192 | every lock-region step of exchanges, purges, ticks and restarts, with any Save outcome, keeps the invariant on codes, grants, locks, store and pending copies |
| ServiceInvariants.ReachableInv | internal/oauthproxy/service.go:46-76 | the invariant holds in every state that any interleaved run reaches from any store |
| ServiceTheorems.TokenProvenance | internal/oauthproxy/service.go:223-296 | every hash in memory, in the store or in a pending purge copy was in the first store or was earned by a code issued for an allowed, identical redirect URI, checked unexpired, with S256(verifier) equal to its challenge (always present when PKCE is mandatory); its expiry is that of its minting; restarts included |
| ServiceTheorems.OneTokenPerCode | internal/oauthproxy/service.go:151-159 | over every run, two tokens from one code are the same token |
| ServiceTheorems.CodesConserved | internal/oauthproxy/service.go:97-159 | codes issued = outstanding + consumed + purged + lost by restart, as a disjoint count, and at most one grant per consumed code |
| ServiceTheorems.FailedCheckBurnsCode | internal/oauthproxy/service.go:269-281 | an expired code, wrong redirect or wrong verifier burns the code: no later step of any run mints a token for it |
| ServiceTheorems.DeadForGood | internal/oauthproxy/service.go:260-296 | a code that nobody holds any more never becomes exchangeable again |
| ServiceTheorems.RefusedRequestsLeaveNoTrace | internal/oauthproxy/service.go:261-267 | any run ends exactly where it would without its requests refused for grant type or client, so the codes they named stay exchangeable |
| ServiceTheorems.TokensOnlyToAllowedHosts | internal/oauthproxy/service.go:223-257 | with the redirect rules of the service, every token of every run went to an https host under claude.ai or anthropic.com |
| ServiceExchanges.CheckAnswers | internal/oauthproxy/service.go:269-281 | in every run, whatever others do meanwhile, the check answers in this order: not held or expired, wrong redirect URI, a challenge that does not decode to the digest of the verifier; a code issued without a challenge needs no verifier; all judged by what the code was issued for |
| ServiceExchanges.ExchangeAnswers | internal/oauthproxy/service.go:283-296 | an exchange that its check lets through answers Ok with its token exactly when its Save succeeds, and a server error otherwise |
| ServiceExchanges.CorrectExchangeGetsToken | internal/oauthproxy/service.go:260-296 | in every run a correct request (right grant type and client, held and unexpired code, same redirect URI, no challenge or a matching verifier) is answered Ok when its Save succeeds |
| ServiceExchanges.AnsweredTokenAccepted | internal/oauthproxy/service.go:163-192 | the token of an Ok answer is accepted from then on exactly until floor(mint time) + TTL |
| ServiceTheorems.LongChallengeNeverExchanged | internal/oauthproxy/service.go:239-246 | every exchanged code had no challenge or one of exactly 43 characters, though issuance accepts up to 128 |
| ServiceTheorems.TokenOutlivesCodeIff | internal/oauthproxy/service.go:269-284 | a token stays within issue time + code TTL + token TTL exactly when no whole second began between code expiry and minting |
| ServiceLifetimes.AcceptedUntilExpiry | internal/oauthproxy/service.go:97-192 | a token accepted once is accepted at every later time before its expiry, in any continuation without a restart: no purge, failed Save or exchange takes it away |
| ServiceLifetimes.ConfirmedAcceptedIff | internal/oauthproxy/service.go:163-192 | in every run a token whose issuance was confirmed since the last start is accepted exactly until its expiry |
| ServiceLifetimes.AcceptedOnlyWithinTTL | internal/oauthproxy/service.go:163-192 | in every run a minted token is accepted at most TTL seconds after minting, and a confirmed one for more than TTL - 1, exactly until floor(mint time) + TTL |
| ServiceLifetimes.ConfirmedSurvivesRestartIff | internal/oauthproxy/service.go:46-76 | without torn Saves a restart keeps a confirmed, unexpired token exactly when the stored map was copied after its confirmation, and always when no purge was interrupted |
| ServiceLifetimes.SavesCarryConfirmedIff | internal/oauthproxy/service.go:82-95 | every exchange saves every confirmed, unexpired token; a purge does exactly when its copy was taken after the confirmation |
| ServiceTheorems.StoreContentExact | internal/oauthproxy/service.go:82-95 | in every reachable state the unexpired store is the visible memory without the tokens confirmed since the stored copy was taken, plus the token of a torn Save |
| ServiceTheorems.StoreWithinMemory | internal/oauthproxy/service.go:82-121 | without torn Saves the unexpired store is a submap of unexpired memory with equal expiries, in every interleaving |
| ServiceTheorems.StoreEqualsMemoryIff | internal/oauthproxy/service.go:82-121 | store and visible memory agree exactly when no token confirmed since the stored copy is unexpired |
| ServiceTheorems.ValidAfterRestartIff | internal/oauthproxy/service.go:46-76 | exactly which tokens a restart accepts; without torn Saves it accepts none that memory rejects |
| ServiceTheorems.PurgeSaveCurrentIff | internal/oauthproxy/service.go:91-95 | a purge's Save leaves the store current exactly when its copy misses no unexpired token |
| ServiceTheorems.UninterruptedPurgesKeepStoreEqual | internal/oauthproxy/service.go:97-121 | as long as no exchange saves between a purge's copy and the Save of that copy, store and memory agree under arbitrary Save failures, and a restart changes no validation |
| ServiceTheorems.SqliteNeverTorn | internal/oauthproxy/service.go:173-180 | runs on SQLite have no Save that fails after taking effect |
| ServiceTheorems.FailedTokenInvisible | internal/oauthproxy/service.go:167-180 | no validation and no purge copy ever sees a token whose Save failed, and if the Save wrote nothing no store holds it |
| ServiceTheorems.ServerErrorTokenNeverValid | internal/oauthproxy/service.go:283-286 | a token answered with a server error is rejected by every later validation up to a restart, and beyond it without torn Saves |
| ServicePurges.PurgesInvisible | internal/oauthproxy/service.go:97-121 | erasing all purge steps of a run changes no exchange result, no error and no validation, within one life of the service |
| ServicePurges.PurgeScheduleInvisible | internal/oauthproxy/service.go:123-136 | two runs that differ only in where and how they purge give the same answers |
| ServicePurges.PurgesChangeStoreIff | internal/oauthproxy/service.go:97-121 | across restarts at which the store is current, purge steps change no answer, and they change an unexpired entry of the store exactly when the store is not current; within one life of the service without further condition |
| ServicePurges.OneLifeNeedsNothing | internal/oauthproxy/service.go:97-121 | a run without restarts meets the condition on restarts |
| ServicePurges.PurgesInvisibleAcrossRestarts | internal/oauthproxy/service.go:97-121 | purging is invisible in the answers and in the store as long as purge Saves miss no unexpired token |
| ServicePurges.CurrentStep | internal/oauthproxy/service.go:82-95 | the store stays current under every step as long as purge Saves are current |
| ServiceExamples.LateMintOutlivesCode | internal/oauthproxy/service.go:270-284 | a run in which a token outlives its code's issue by more than the two lifetimes |
| ServiceExamples.StaleCopyLosesToken | internal/oauthproxy/service.go:82-95 | a run without a failing Save in which a restart forgets a confirmed token |
| ServiceExamples.TornSaveRevivedByRestart | internal/oauthproxy/service.go:173-180 | with the JSON store, a run in which a token answered with a server error is valid after a restart |
| SequentialRuns.RunExchange | internal/oauthproxy/service.go:260-296 | an exchange that passes its checks is the machine run Begin, Check, Insert, Save, Unlock and answers as the Save went |
| SequentialRuns.RefusedCode | internal/oauthproxy/service.go:269-281 | an exchange refused on its code is the run Begin, Check, and consumes the code |
| SequentialRuns.RunSync | internal/oauthproxy/service.go:82-95 | copying and saving after the sweeps is the run PurgeSnapshot, Tick, PurgeSave |
| SequentialRuns.SyncIsSequential | internal/oauthproxy/service.go:82-95 | a purge that runs on its own leaves no copy open, so operations one after another never interrupt a purge |
| Service.TokenService.NewService | internal/oauthproxy/service.go:46-76 | starts exactly when the store loads and the backend URL is empty or parses; then in the machine's boot state: no codes, and exactly the unexpired tokens of the store |
| Service.TokenService.ConsumeAuthCode | internal/oauthproxy/service.go:151-159 | returns the code's data and removes that code only, in one step |
| Service.TokenService.AddAccessToken | internal/oauthproxy/service.go:163-181 | saves memory with the new token, and keeps the token in memory only if the Save returned nil |
| Service.TokenService.ValidateAccessToken | internal/oauthproxy/service.go:183-192 | performs the machine's Validate and answers as it does, for exactly the unexpired tokens held |
| Service.TokenService.IssueAuthCode | internal/oauthproxy/service.go:223-257 | performs the machine's Issue; which request gets which error, in order, and what exactly is stored for an accepted one |
| Service.TokenService.ExchangeToken | internal/oauthproxy/service.go:260-296 | performs one of the three machine runs of an exchange with its answer, which is spelled out condition by condition; burns the code unless the request was refused first |
| Service.TokenService.SweepCodes | internal/oauthproxy/service.go:100-106 | removes only expired codes and every code expired when the purge began |
| Service.TokenService.SweepAccessTokens | internal/oauthproxy/service.go:108-116 | removes exactly the tokens expired by the purge's second, and reports a change exactly when there is one |
| Service.TokenService.PurgeExpired | internal/oauthproxy/service.go:97-121 | performs purge events only, keeps every unexpired token, and touches the store only after removing something |
| Grant.TokenLifetime | internal/oauthproxy/service.go:163-192 | a token minted at t is valid exactly before floor(t) + TTL, so for more than TTL - 1 and at most TTL seconds |
| Grant.CodeJudged | internal/oauthproxy/service.go:269-281 | which failing condition on a consumed code gives which error, with the PKCE check as: the challenge decodes to the digest of the verifier |
| Base64Url.DecodeInvertsEncode | internal/security/rand.go:18-18 | unpadded base64url round-trips and n bytes give ceil(8n/6) characters, so 32 give 43 |
| Base64Url.DecodeIffEncode | internal/security/rand.go:18-18 | the decoder accepts the encodings and nothing else |
| Base64Url.EncodeInjective | internal/security/rand.go:18-18 | different bytes never share an encoding |
| Base64Url.Alphabet | internal/security/rand.go:18-18 | the characters are those of table 2 in section 5 of RFC 4648, in order |
| Base64Url.SextetsBigEndian | internal/security/rand.go:18-18 | every three bytes become four six-bit values of the same number, most significant first |
| Base64Url.LastSextets | internal/security/rand.go:18-18 | one or two bytes left over become two or three values, padded with zero bits on the right |
| Base64Url.GenerateRandomString | internal/security/rand.go:13-19 | the result decodes to exactly the first n bytes of the source; it fails exactly when the source runs dry |
| Pkce.MatchedChallengeIsADigest | internal/security/pkce.go:9-18 | a verifier matches exactly the challenge that decodes to its digest, which has 43 characters |
| RedirectUri.AllowedIffLabels | internal/security/redirect_uri.go:19-43 | a URI is allowed exactly when it parses, is https, and its host has claude.ai or anthropic.com as its last two labels |
| TokenMaps.SaveThenLoadExact | internal/storage/json_store.go:63-84 | Save at t1 and Load at t2 give exactly the entries with v > t2 in JSON and floor(v) > t2 in SQLite |
| TokenMaps.StoresDifferInOneSecond | internal/storage/sqlite_store.go:74-127 | the stores differ on an entry exactly in the second floor(v) of a fractional expiry, and then SQLite has dropped it |
| TokenMaps.StoresAgreeOnKeysIff | internal/storage/sqlite_store.go:74-127 | the stores keep the same tokens exactly when no fractional expiry falls in the second of the Load |
| TokenMaps.PersistIntegral | internal/storage/sqlite_store.go:117-124 | on whole-second expiries truncation changes nothing |
| JsonSave.InvStep | internal/storage/json_store.go:91-128 | every file-system step of a Save, failed or not, and every power loss keep the crash invariant and never lower what is acknowledged |
| JsonSave.NeverTornNeverStale | internal/storage/json_store.go:91-128 | over any run of Saves, failures and power losses the token file is the complete content of one Save (or the initial file), no older than the last that returned nil, now and after a further power loss |
| JsonSave.UnsyncedBytesNeverRead | internal/storage/json_store.go:96-112 | what a power loss makes of unsynced bytes, such as a leftover temporary file, never shows in the token file |
| JsonSave.OnlyRenameChangesTheFile | internal/storage/json_store.go:114-116 | while the machine is up the rename alone changes the token file, and brings in the whole new content |
| JsonSave.FileKeptWithoutRename | internal/storage/json_store.go:91-116 | Saves that fail before the rename leave the token file unchanged over any run |
| JsonSave.LateFailureIsVisible | internal/storage/json_store.go:118-126 | a Save that fails after its rename has replaced the file |
| JsonSave.AcknowledgedSurvives | internal/storage/json_store.go:118-128 | after Save returns nil every power loss brings back its content until another Save renames |
| JsonSave.AfterRenameEitherComesBack | internal/storage/json_store.go:114-122 | between the rename and the directory sync a power loss may bring back either content |
| JsonStore.TokenStore.Save | internal/storage/json_store.go:74-129 | nil exactly when no call fails, and then the file holds exactly the unexpired entries, durably; the file is replaced exactly when every call up to the rename works |
| JsonStore.TokenStore.Unexpired | internal/storage/json_store.go:78-84 | the copying loop keeps exactly the unexpired entries |
| JsonStore.TokenStore.Load | internal/storage/json_store.go:28-72 | exactly when Load gives a map, which one, and which of the read error, the corruption error and the two backup outcomes it gives otherwise |
| JsonStore.LoadAfterAnyHistory | internal/storage/json_store.go:28-72 | after any history of Saves, failures and power losses Load reports no corruption and gives the unexpired entries of one whole Save no older than the last acknowledged |
| JsonStore.SaveSurvivesPowerLoss | internal/storage/json_store.go:28-129 | an acknowledged Save, a power loss and Load give exactly the entries still unexpired |
| SqliteStore.SQLiteStore.Save | internal/storage/sqlite_store.go:99-127 | commits exactly the entries whose truncated expiry is in the future; any error leaves the database as it was |
| SqliteStore.SQLiteStore.Load | internal/storage/sqlite_store.go:74-96 | gives exactly the unexpired rows, and an error exactly when the query, a scanned row or the iteration fails |
| SqliteStore.SQLiteStore.Checkpoint | internal/storage/sqlite_store.go:130-133 | done, it makes the visible rows the only ones that a power loss can bring back; blocked, it changes nothing and reports no error |
| StoreRefinement.SaveJson | internal/storage/json_store.go:74-129 | a JSON Save takes the map in the file to what the service's machine says for Saved, NotWritten or WrittenButFailed, and the faults decide which |
| StoreRefinement.LoadJson | internal/storage/json_store.go:28-72 | a JSON Load returns the unexpired part of that map |
| StoreRefinement.CarriedTokenSurvivesPowerLoss | internal/storage/json_store.go:74-129 | a token in every Save since the last acknowledged one is there after any power loss |
| StoreRefinement.FailedSaveReviveOrLose | internal/storage/json_store.go:114-126 | after an error past the rename a power loss may bring back the old map or the new one |
| StoreRefinement.SaveSqlite | internal/storage/sqlite_store.go:99-127 | a SQLite Save takes the map of the rows to what the machine says for Saved or NotWritten, in whole seconds |
| StoreRefinement.LoadSqlite | internal/storage/sqlite_store.go:74-96 | a SQLite Load returns the unexpired part of that map, or an error |
| Migration.MigrateJSONToSQLite | internal/storage/migration.go:27-78 | succeeds, with the source moved, exactly when the source is there, reads and parses, SQLite opens, reads and has no unexpired row, and no call of the Save, checkpoint, close or rename fails; the first failure gives the error; the rows are then exactly the source's unexpired ones; after every step and any power loss the source is at its path or SQLite holds all its tokens, unless the checkpoint was blocked over rows that lack some |
| Migration.Fill | internal/storage/migration.go:47-64 | the check, Save and checkpoint, with their exact effect and failures |
| Migration.EveryTokenIsFound | internal/storage/migration.go:56-75 | after the move SQLite answers exactly the source's tokens with floor(v) > t, missing an unexpired one only in the second floor(v) |
| Migration.BusyMoveIff | internal/storage/sqlite_store.go:130-133 | a checkpoint that is blocked reports no error, and the rename that follows loses nothing exactly if every recoverable state of the rows already carried the tokens |
| Migration.RetryProceedsIff | internal/storage/migration.go:47-54 | a second attempt after a failure past the Save gets past the emptiness test exactly when no saved token is unexpired |
| McpAcl.IsPublicTool | internal/oauthcore/mcp_acl.go:66-73 | the search finds a tool exactly when it is on the public list |
| McpAcl.PayloadAllowed | internal/oauthcore/mcp_acl.go:18-36 | admitted exactly when there is a message and each is admitted alone; the reason is the first refused message's; the flag says that some message lists the tools |
| McpAcl.AdmittedIffToolsPublic | internal/oauthcore/mcp_acl.go:38-73 | of the bodies that some public list admits, a list admits exactly those whose called tools are all on it |
| McpAcl.AdmittedMessages | internal/oauthcore/mcp_acl.go:38-64 | an admitted message can only start a session, list tools, or call a public tool |
| McpAcl.AdmissionMonotone | internal/oauthcore/mcp_acl.go:18-73 | a larger public list admits at least as much and never changes the tools/list flag |
| McpAcl.BatchesCompose | internal/oauthcore/mcp_acl.go:18-33 | a joined batch is admitted, and flagged, exactly as its parts are |
| ToolsFilter.FilterJSON | internal/oauthproxy/proxy.go:253-281 | the loops compute the filter of the tree |
| ToolsFilter.KeptExactly | internal/oauthproxy/proxy.go:268-279 | the kept tools are an order-preserving selection of exactly the objects with a public string name |
| ToolsFilter.KeptByName | internal/oauthproxy/proxy.go:269-277 | those are the objects whose `name` is a string on the public list |
| ToolsFilter.EveryListFiltered | internal/oauthproxy/proxy.go:253-281 | at every path through arrays to a result.tools list the filtered tree holds exactly the kept tools |
| ToolsFilter.ToToolsIff | internal/oauthproxy/proxy.go:254-267 | the paths meant are exactly: array indices, then `result` and `tools`, to an array |
| ToolsFilter.ElsewhereUnchanged | internal/oauthproxy/proxy.go:253-281 | at every other path the tree has the same nodes as before |
| ToolsFilter.SameLists | internal/oauthproxy/proxy.go:253-281 | the filter neither makes nor hides lists of tools |
| ToolsFilter.NoHiddenTool | internal/oauthproxy/proxy.go:269-279 | a tool is in a filtered list exactly when it was there and is public |
| ToolsFilter.FilterTwice | internal/oauthproxy/proxy.go:253-281 | filtering under two policies is filtering under what both make public, in either order |
| ToolsFilter.FilterIdempotent | internal/oauthproxy/proxy.go:253-281 | filtering twice is filtering once |
| Splitting.JoinOfSplit | internal/oauthproxy/proxy.go:233-250 | split and join on a separator are lossless |
| Splitting.SplitOfJoin | internal/oauthproxy/proxy.go:233-250 | pieces without the separator survive join and split |
| SseFilter.FilterToolsListBody | internal/oauthproxy/proxy.go:223-251 | the in-place line rewriter computes the filter of the body; a JSON body stays JSON and parses to exactly the filtered tree |
| SseFilter.JsonBodyFiltered | internal/oauthproxy/proxy.go:224-231 | a JSON body stays JSON and parses to exactly the filtered tree; if that cannot be printed the body stays as it is |
| SseFilter.StreamLineByLine | internal/oauthproxy/proxy.go:233-250 | the number and order of lines stay; a line without the prefix or that does not parse is byte-identical; every other line parses to the filtered event |
| SseFilter.StreamInBytes | internal/oauthproxy/proxy.go:233-249 | in bytes: a line that is `data: ` and a JSON text becomes `data: ` and the printed filtered tree, any other text after the prefix stays |
| SseFilter.OtherLinesInBytes | internal/oauthproxy/proxy.go:235-238 | a line without the prefix is never touched |
| SseFilter.StreamStaysStream | internal/oauthproxy/proxy.go:223-251 | a filtered event stream never turns into a JSON text |
| SseFilter.BodyIdempotent | internal/oauthproxy/proxy.go:223-251 | filtering a body twice is filtering it once, across both branches |
| SseFilter.StreamWithoutEventsUntouched | internal/oauthproxy/proxy.go:233-250 | a stream with nothing to rewrite goes through byte for byte |
| SseFilter.OnlyPublicToolsDelivered | internal/oauthproxy/proxy.go:223-251 | a filtered body that is one JSON text lists public tools only, and so does each single `data: ` line of a filtered stream |
| SseFilter.LineShowsIff | internal/oauthproxy/proxy.go:234-249 | taken by itself, a line of a filtered stream shows a non-public tool exactly when it did before and is a data line without the space |
| EventStream.ClientLinesOfFiltered | internal/oauthproxy/proxy.go:233-250 | the lines that a client of the filtered stream reads (byte order mark dropped, lines ended by CR, LF or CRLF), worked out from the stream before |
| EventStream.ClientSeesIff | internal/oauthproxy/proxy.go:233-250 | a client that joins the data lines of each event sees a non-public tool exactly when some event shows it that is not carried by one rewritten line alone |
| EventStream.EventLeftAlone | internal/oauthproxy/proxy.go:235-242 | a stream of one event whose data lines the filter leaves alone shows the client whatever the joined lines show |
| PathClean.CleanPath | internal/oauthproxy/proxy.go:126-126 | the one-pass byte scan that backs up over `..` computes the fold over segments |
| PathClean.CleanIdempotent | internal/oauthproxy/proxy.go:126-126 | cleaning keeps the place that a path names and is idempotent |
| PathClean.CleanEqualIff | internal/oauthproxy/proxy.go:126-126 | two paths clean alike exactly when they name the same place from the same start |
| PathClean.CleanRootedSegments | internal/oauthproxy/proxy.go:126-126 | a cleaned rooted path has no empty, `.` or `..` segment |
| PathClean.PlaceNext | internal/oauthproxy/proxy.go:126-126 | what one more segment does to the place a path names: nothing and `.` stay, `..` goes one up but not above the root, a name goes one down |
| PathClean.PlaceStart | internal/oauthproxy/proxy.go:126-126 | what a single segment names, from the start and from the root |
| Proxy.BoundaryIff | internal/oauthproxy/proxy.go:134-138 | the textual boundary test holds exactly when the place named is /mcp or below it |
| Proxy.HandleProxy | internal/oauthproxy/proxy.go:99-168 | forwarded exactly when authenticated or admitted anonymously, not malformed, under /mcp, with a backend; with a header only as `Bearer` and a valid token; the answer to every other request; the response is filtered exactly when anonymous and asking for the tools |
| Proxy.BearerOnly | internal/oauthproxy/proxy.go:101-111 | a request with a header gets past authentication only, and always, as `Bearer` and a token that validates; if no token validates it is answered 401 |
| Proxy.MalformedIff | internal/oauthproxy/proxy.go:128-132 | a path is malformed exactly when it contains `@`, or its raw form `%2e` or `%2E` |
| Proxy.PathAnswerSpelledOut | internal/oauthproxy/proxy.go:125-145 | the answer by the text of the cleaned path, and the exact text of the backend path |
| ProxyAccess.ForwardedTokenWasEarned | internal/oauthproxy/proxy.go:101-111 | in every run a request with a header is forwarded only with an unexpired token that was in the first store or was earned by a code exchange |
| ProxyAccess.ConfirmedTokenIsLetIn | internal/oauthproxy/proxy.go:101-111 | in every run a client with a confirmed token is let in until its expiry and answered 401 from then on |
| Proxy.Allow | internal/oauthproxy/proxy.go:170-194 | anonymous admission and its three refusals, including the size limit |
| Proxy.FilterResponse | internal/oauthproxy/proxy.go:84-90 | an oversized or unreadable response of a filtered request is an error, never passed through |
| Proxy.ForwardedUnderBase | internal/oauthproxy/proxy.go:60-66 | for every request path the backend path names the base or a place below it, by segments none of which is empty, `.` or `..` |
| Proxy.TargetIsClean | internal/oauthproxy/proxy.go:60-66 | for a clean backend path the backend path of a request is clean text: no doubled slash, nothing that cleaning would change |
| Proxy.SpellingMattersIff | internal/oauthproxy/proxy.go:126-145 | two requests that only spell one place differently get the same answer exactly when both spellings are malformed or neither is, or the sender is refused before |
| Proxy.TargetsInjective | internal/oauthproxy/proxy.go:125-145 | forwarded requests share a backend path exactly when their cleaned paths are equal |
| AuditRedaction.RedactAuditValue | internal/observability/audit.go:115-143 | the loops compute the redaction |
| AuditRedaction.KeyDecides | internal/observability/audit.go:92-118 | a key that contains a listed part anywhere, lower-cased, has its value replaced by the marker |
| AuditRedaction.ValueDecides | internal/observability/audit.go:115-142 | under any other key a text is replaced exactly when a pattern matches, parts are judged by their own keys, and the rest passes |
| AuditRedaction.SensitiveHoldsMarker | internal/observability/audit.go:115-118 | at any depth a value under a sensitive key is the marker |
| AuditRedaction.NoCredentialLeft | internal/observability/audit.go:120-127 | every string left at any depth is the marker, or was there before and matches no pattern |
| AuditRedaction.ExposedNodesKept | internal/observability/audit.go:128-142 | outside sensitive keys every path, key set, length and other value survives |
| AuditRedaction.RedactIdempotent | internal/observability/audit.go:115-143 | redacting twice is redacting once |
| AuditRedaction.UnchangedIff | internal/observability/audit.go:115-143 | a value is left alone exactly when there is nothing to hide in it |
| AuditRedaction.LogEntry | internal/observability/audit.go:38-62 | every caller field enters the entry redacted under its own key; the record's own fields stay unless overlaid |

## Left out

- HTTP server, mux, TLS, reverse-proxy transport, header stripping and percent-encoding of the forwarded path: plumbing over net/http.
- The handlers' decoding of forms and queries, the error-code mapping of `internal/oauthcore/errors.go`, metadata and registration: easy members with no property across steps.
- Client addresses and CIDR lists (`internal/security/requestinfo.go`): searches whose contract would be their body.
- Shutdown: a purge may still be running when the store is closed, so nothing is claimed about writes after Close.
- JSON text itself (escaping, key order, numbers beyond float64): a codec with stated laws. Decoded trees are values, so the in-place update of `result["tools"]` appears as an updated tree; a freshly decoded tree shares no nodes, so nothing else could see the difference.
- Reader-writer locks appear as the atomicity of machine steps and the `writer` field; fairness and scheduling are not modelled.
- The JSON store's corruption branch is modelled by its result only, not by its rename to a `.bak` file; LoadAfterAnyHistory shows that no history of Saves reaches it.
- SQLite's internals: SQL text and busy time-outs.
- Restarts in the service machine are process restarts. What a power loss brings back is modelled per store: for JSON, SavesCarryConfirmedIff and CarriedTokenSurvivesPowerLoss together say when a token answered Ok survives one; for SQLite, where a power loss can undo commits since the last checkpoint, in SqliteStore and Migration.
- Fields of an event stream other than data (event names, identifiers, retry times) and an unfinished last event: clients show none of them.
- The credential patterns of the audit log and Unicode lower-casing are parameters; all that is asked of the patterns is that they do not match the marker. Go values such as []string pass the redactor unchanged.
- Lengths of challenges are counted in characters; the program counts bytes, which agree for the ASCII texts that can match.

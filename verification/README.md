# Proofs about the assistant's backend

A Dafny model of the parts of the system whose correctness spans several functions, and proofs about
every run of them:

- **Audit trail** (`AuditChain`, `AuditStore`, `AuditPaging`, `AuditListing`, `AuditDelivery`,
  `AuditRecorder`). A recorder
  queues events, sends them in batches, retries, and splits a batch the service refuses. The service validates
  a batch as a whole, drops duplicates and appends to one hash chain per tenant; it verifies a chain and pages
  through it. Requests may be lost, reach the service late, or reach it again; replies may be lost.
- **Vault** (`VaultCrypto`, `VaultStore`, `VaultService`). Envelope encryption with its associated data and
  binary blob, the key tables, and any number of Vault processes with their own master keys creating, revoking
  and fetching keys.
- **Command approval** (`DevicePolicy`, `DeviceSandbox`, `DeviceApproval`, `DeviceService`, `CommandDisplay`).
  The policy, the sandbox profile, single-use approvals, the order in which a request is decided, given a slot,
  redeemed and run, and the command line shown to the approver.
- **App sessions and rate limiting** (`AppSessions`, `RateLimit`). Refresh tokens that rotate, may be retried
  within a grace period and end the session when reused later (the practice of section 4.14.2 of RFC 9700), and
  the token bucket per address.
- **Knowledge** (`KnowledgeGraph`, `ContextPacker`). Sources as reference counts for entities and relations,
  evidence that combines, and a context packed within a token budget.

`ByteStrings`, `Options`, `Sorting` and `Sizes` hold the encodings, the optional values, the stable sort and the counting
lemmas the others share.

Conventions. What the code updates in place is a class or a loop here; each method is proved against a
specification function, and the properties are proved about that function over runs. A database transaction is
one step, taken at its commit. Times are numbers that never decrease. Cryptography is a parameter: SHA-256 is any
function to 32 bytes and HMAC-SHA256 any function, so wherever the code relies on a hash, the statement is
"equal, or these two given inputs differ and have one digest"; of AES-256-GCM it is assumed only that decrypting
what was encrypted gives it back and that a tag adds 16 bytes, so opening under the wrong binding fails or is an
explicit forgery. Floating-point numbers are reals.

Where the code does less than one would expect, the model follows the code:

- An entity keeps its last 64 sources, so a 65th can drop a source that a relation still names
  (`SixtyFifthSourceLosesSupport` gives a run); `UpsertSupportedIff` says exactly when.
- Forgetting a source keeps the weight it gave to relations that survive, so hearing it again counts it twice
  (`ReturningSourceCountsTwice`); `ClaimWeighsIff` says exactly when a claim is counted once.
- Deleting an entity can leave a neighbour that nothing keeps (`DeletingMayUproot` gives a run);
  `DeleteKeepsRootedIff` says exactly when, and by `RunIsRooted` it takes a dropped source as above.
- The length prefix of a data binding's purpose saturates at 255, so encodings are ambiguous for longer purposes
  (`LongPurposesAreAmbiguous`, `EncodesApartIff`); its callers stay below.

## Model

| member | source | states |
|---|---|---|
| `AuditChain.WriteField` | services/audit/internal/chain/chain.go:61-65 | feeding one field keeps the hasher's input equal to the domain, the previous hash and the encoding of all fields written, in order |
| `AuditChain.WriteDetails` | services/audit/internal/chain/chain.go:89-92 | the loop over the sorted keys feeds each key followed by its value |
| `AuditChain.SortedKeys` | services/audit/internal/chain/chain.go:83-87 | the keys fed are the map's keys, each once, in byte order, whatever order the map is walked in |
| `AuditChain.FieldsInOrder` | services/audit/internal/chain/chain.go:68-88 | the fields before the details are the sixteen the chain hashes, in its order |
| `AuditChain.DetailsInOrder` | services/audit/internal/chain/chain.go:83-92 | each detail's value follows its key, and the keys ascend |
| `ByteStrings.LexLeMeans` | services/audit/internal/chain/chain.go:87 | keys compare by the first byte that differs, a prefix first |
| `AuditChain.Hash` | services/audit/internal/chain/chain.go:56-94 | the hash is the digest of the specified bytes: domain, previous hash, sixteen fields, details in key order |
| `AuditChain.UvarintMeans` | services/audit/internal/chain/chain.go:61-65 | a length is written in as few seven-bit groups as there can be, the least significant first, the high bit on all but the last |
| `AuditChain.UvarintCancel` | services/audit/internal/chain/chain.go:61-65 | base-128 lengths are prefix-free: equal streams start with equal numbers and continue equally |
| `AuditChain.EncodeCancel` | services/audit/internal/chain/chain.go:61-65 | equal streams of as many length-prefixed fields hold the same fields and the same rest |
| `AuditChain.DetailsDetermine` | services/audit/internal/chain/chain.go:83-92 | the sorted key and value list determines the details map |
| `AuditChain.FieldsDetermine` | services/audit/internal/chain/chain.go:68-92 | the encoded fields determine every field of the event, details included, although their number varies |
| `AuditChain.PreimageDetermines` | services/audit/internal/chain/chain.go:56-94 | with previous hashes of one length, the hashed bytes determine the previous hash and the event |
| `AuditChain.FirstLinkIsNotLater` | services/audit/internal/server/server.go:98-105 | the bytes of a chain's first event never equal those of a later one, because tenant ids are 36-character canonical UUIDs |
| `AuditChain.HashedBytesDetermine` | services/audit/internal/chain/chain.go:56-94 | the hashed bytes determine both the previous hash (empty or 32 bytes, without a length prefix) and the whole event |
| `AuditChain.HashIsLink` | services/audit/internal/chain/chain.go:56-94 | the chain's link used by the store is the digest of exactly those bytes |
| `AuditChain.ChainHashingDetermines` | services/audit/internal/chain/chain.go:56-94 | the real encoding meets what the store's tamper evidence asks of an encoding, for any digest |
| `AuditStore.AppendedIntact` | services/audit/internal/store/store.go:128-183 | appending keeps a chain intact: sequences 1..N, each row linked to the one before, ids distinct, one tenant |
| `AuditStore.AppendedRowsAreStamped` | services/audit/internal/store/store.go:155-174 | every row appended holds the batch's first event of an id not stored before, stamped with the caller and the time of recording |
| `AuditStore.EveryEventIsThere` | services/audit/internal/store/store.go:128-183 | after an append every event of the batch is stored, by its id |
| `AuditStore.AppendTenant` | services/audit/internal/store/store.go:128-183 | appends exactly the events whose id is neither stored nor earlier in the batch, in order; leaves the head of the new rows; counts recorded and duplicates |
| `AuditStore.GroupByTenant` | services/audit/internal/store/store.go:100-107 | splits a batch by tenant, keeping each tenant's order and losing nothing |
| `AuditStore.AppendOne` | services/audit/internal/store/store.go:128-183 | one tenant's group reaches that tenant's rows only and keeps heads and rows intact |
| `AuditStore.AppendGroups` | services/audit/internal/store/store.go:113-126 | in whatever order tenants are taken, each tenant's rows become its appended rows, and counts add up |
| `AuditStore.Store.constructor` | services/audit/internal/store/store.go:28-34 | an empty store is intact |
| `AuditStore.Store.Append` | services/audit/internal/store/store.go:99-126 | all of a batch is appended or, when the transaction fails, nothing changes; heads always match intact chains; recorded plus duplicates is the batch, and nothing is recorded exactly when no trail changes |
| `AuditStore.VerifyRow` | services/audit/internal/store/store.go:307-327 | one row extends the account of the first unsound position and of the recomputed head |
| `AuditStore.Verify` | services/audit/internal/store/store.go:279-343 | on any table with increasing positive sequences, the paged pass says intact exactly when every row is sound and the stored head matches, and otherwise reports the least missing or mislinked position |
| `AuditStore.IntactVerifies` | services/audit/internal/store/store.go:279-343 | what appending leaves always verifies as intact |
| `AuditStore.BreakIsPastUntouchedPrefix` | services/audit/internal/store/store.go:300-339 | a reported break is never inside a prefix that is still as appended |
| `AuditStore.OneHeadOneChain` | services/audit/internal/store/store.go:279-343 | two sound tables that recompute to one head are the same table, or two given rows collide |
| `AuditStore.TamperEvident` | services/audit/internal/store/store.go:279-343 | a table that verifies under the head left by appending is exactly the appended rows, or a given pair of rows collides |
| `AuditTrail.TrailIsTamperEvident` | services/audit/internal/chain/chain.go:56-94 | the same with the real encoding: the rows are as appended, or two of them have different hashed bytes with one digest |
| `AuditServer.Record` | services/audit/internal/server/server.go:161-186 | a batch is refused exactly when it is empty, too long or holds an event that cannot be read, and then nothing is recorded; otherwise every tenant's part of what was read is appended or nothing is |
| `AuditPaging.LikePrefixIsPrefix` | services/audit/internal/store/store.go:213-216 | the escaped LIKE pattern matches a string exactly when it starts with the prefix, whatever it contains |
| `AuditPaging.MatchesMeans` | services/audit/internal/store/store.go:232-237 | a row is listed exactly for a user who did it or had it done, an action that starts with the prefix, and a time from since up to before until |
| `AuditPaging.NewestFirstMeans` | services/audit/internal/store/store.go:239 | listed times fall, and events of one time come by falling sequence |
| `Sorting.SortIsStable` | services/knowledge/src/jarvis_knowledge/retrieval.py:209 | sorting keeps elements that tie in the order they came |
| `AuditPaging.SelectedNewestFirst` | services/audit/internal/store/store.go:220-250 | the query returns exactly the matching rows below the cursor, newest first |
| `AuditPaging.List` | services/audit/internal/store/store.go:220-264 | a page is the first matching rows below the cursor; there is a next cursor exactly when rows are left, and it is the last row's key |
| `AuditPaging.FollowedFrom` | services/audit/internal/store/store.go:218-264 | following cursors over growing tables: the pages together are newest first, and hold every match of the first table below the first cursor |
| `AuditPaging.FollowingReturnsEachOnce` | services/audit/internal/store/store.go:218-264 | following cursors from the start returns every matching event that existed then exactly once, newest first, whatever is appended between pages |
| `Base64Url.RoundTrip` | services/audit/internal/server/server.go:193-211 | decoding a token gives back the bytes encoded in it, whatever they are |
| `AuditListing.JsonDetermines` | services/audit/internal/server/server.go:188-198 | different cursors are written as different JSON |
| `AuditListing.TokenRoundTripIff` | services/audit/internal/server/server.go:193-211 | the token of a 64-bit cursor is accepted exactly when its sequence is at least 1, within the length limit, and then stands for that cursor |
| `AuditListing.ListEvents` | services/audit/internal/server/server.go:214-253 | refuses exactly a page size out of range or a token that is not valid; otherwise serves the page after the token and the token of the next |
| `AuditListing.FollowingTokensReturnsEachOnce` | services/audit/internal/server/server.go:193-253 | a client that passes tokens on until there is none gets every matching event that existed at the start exactly once, newest first, whatever is appended between pages |
| `AuditDelivery.SettleBatch` | libs/go/auditlog/auditlog.go:243-271 | once each event of the batch is acknowledged or logged, dropping the batch keeps the account of events |
| `AuditDelivery.ReturnConserves` | libs/go/auditlog/auditlog.go:276-293 | every reply, to a batch or to one event of a split batch, keeps the account |
| `AuditDelivery.ProceedConserves` | libs/go/auditlog/auditlog.go:225-243 | draining the queue at shutdown and sending keep the account and the batch bound |
| `AuditDelivery.StepConserves` | libs/go/auditlog/auditlog.go:137-293 | every step of anyone keeps it: entered events are settled, in the batch or queued, in that order, and settled ones are acknowledged or logged |
| `AuditDelivery.RecordsIff` | libs/go/auditlog/auditlog.go:137-170 | a Record call queues its event exactly when the recorder is open and has room, and otherwise only logs it |
| `AuditDelivery.EnteredIsAccepted` | libs/go/auditlog/auditlog.go:137-170 | in every run the events that entered are exactly those recorded while the recorder was open with room, in order |
| `AuditDelivery.ProceedSends` | libs/go/auditlog/auditlog.go:225-243 | what waits is sent whole, up to a batch, with the queue drained into it when stopping; nothing is sent only when nothing waits, and then a stopping loop returns |
| `AuditDelivery.ReturnDoes` | libs/go/auditlog/auditlog.go:243-293 | an accepted batch is acknowledged, a refused one is sent event by event, a failed one is kept for another try, and at shutdown everything left is logged |
| `AuditDelivery.TrailOfAppended` | services/audit/internal/store/store.go:128-183 | the events of the appended rows are the old trail followed by the batch's new ids |
| `AuditDelivery.FrontierReaches` | libs/go/auditlog/auditlog.go:276-293 | if all valid events of a tenant before a point are recorded, its trail covers at least that prefix of the Record order |
| `AuditDelivery.ArriveOne` | services/audit/internal/store/store.go:155-174 | a recorded event either is a duplicate or extends the recorded prefix by one |
| `AuditDelivery.ArriveSlice` | services/audit/internal/store/store.go:128-183 | a request that arrives, first or again, early or late, leaves each trail the due events of one prefix |
| `AuditDelivery.ArriveDelivers` | services/audit/internal/server/server.go:161-186 | the arrival of any request ever sent keeps the delivery guarantee of every tenant |
| `AuditDelivery.OtherBatchDelivers` | services/audit/internal/store/store.go:99-126 | other producers' batches do not disturb it |
| `AuditDelivery.RecordDelivers` | libs/go/auditlog/auditlog.go:137-170 | recording, or logging when closed or full, keeps it |
| `AuditDelivery.BatchReplyCalls` | libs/go/auditlog/auditlog.go:276-280 | whatever the reply to a batch, acknowledged events are in their trails and the next request starts after what is delivered |
| `AuditDelivery.SingleReplyCalls` | libs/go/auditlog/auditlog.go:281-292 | the same for one event of a split batch |
| `AuditDelivery.StepDelivers` | libs/go/auditlog/auditlog.go:206-293 | every step keeps the guarantee, and the delivered prefix never shrinks |
| `AuditDelivery.RunDelivers` | libs/go/auditlog/auditlog.go:206-293 | the guarantee holds in every state of every run |
| `AuditDelivery.TrailHoldsEachOnceInOrder` | libs/go/auditlog/auditlog.go:206-293 | in every run each tenant's trail, restricted to the recorder's events, is exactly the valid ones of one prefix of the Record order: none twice, none out of order, none skipped; and every chain is intact |
| `AuditDelivery.NothingIsLostSilently` | libs/go/auditlog/auditlog.go:137-293 | in every run an event that entered the queue is queued, in the batch, acknowledged or logged, and one of the last two when the loop has returned; acknowledged ones are in their trail; until the loop returns every valid event no longer waiting is in its trail; queue and batch stay within their sizes |
| `AuditDelivery.EverythingCanBeDelivered` | libs/go/auditlog/auditlog.go:206-293 | in every run, from every state before the loop has returned, the loop and a service that answers can reach a state where nothing waits, every valid event that entered is in its trail and every other one is logged |
| `AuditDelivery.ClosedLoopReturns` | libs/go/auditlog/auditlog.go:221-241 | a closed recorder with nothing left to send ends its loop |
| `AuditRecorder.Recorder.constructor` | libs/go/auditlog/auditlog.go:96-116 | a new recorder is the protocol's initial state |
| `AuditRecorder.Recorder.Record` | libs/go/auditlog/auditlog.go:137-170 | a report becomes an event under a new id, dated now when it has no time; it is queued exactly when the recorder is open with room, and logged otherwise |
| `AuditRecorder.Recorder.Close` | libs/go/auditlog/auditlog.go:183-195 | stops accepting and changes nothing else |
| `AuditRecorder.Recorder.Take` | libs/go/auditlog/auditlog.go:216-219 | moves the oldest queued event to the end of the batch |
| `AuditRecorder.Recorder.Proceed` | libs/go/auditlog/auditlog.go:215-243 | is the protocol's step from the select to the next call, return or round |
| `AuditRecorder.Recorder.Drain` | libs/go/auditlog/auditlog.go:225-235 | the loop moves queued events in order until the batch is full or the queue is empty, and never exceeds a batch |
| `AuditRecorder.Recorder.SendBatch` | libs/go/auditlog/auditlog.go:236-243 | sends a non-empty batch; with an empty one it returns when stopping and goes round otherwise |
| `AuditRecorder.Recorder.Return` | libs/go/auditlog/auditlog.go:243-293 | is the protocol's step for a reply |
| `AuditRecorder.Recorder.SendAlone` | libs/go/auditlog/auditlog.go:281-292 | is the protocol's step to the next event of a refused batch |
| `AuditRecorder.Recorder.FailedSend` | libs/go/auditlog/auditlog.go:243-267 | is the protocol's step for a failure: wait, or log all that is left at shutdown |
| `AuditRecorder.Recorder.LogBatch` | libs/go/auditlog/auditlog.go:245-248 | logs every event of the batch |
| `AuditRecorder.Recorder.LogQueue` | libs/go/auditlog/auditlog.go:249-257 | logs every queued event and empties the queue |
| `AuditRecorder.Recorder.Wake` | libs/go/auditlog/auditlog.go:261-267 | a backoff ends with the batch kept, and remembers a stop |
| `VaultCrypto.AssociatedDataDetermines` | services/vault/src/crypto.rs:89-149 | associated data determines the layer, the kind of envelope and its owner or binding, across all four labels |
| `VaultCrypto.KeyDataLayout` | services/vault/src/crypto.rs:86-99 | a key's associated data is the label, a zero byte, tenant, key and provider |
| `VaultCrypto.BindingDataLayout` | services/vault/src/crypto.rs:124-149 | a binding's is the label, a zero byte, tenant, purpose and subject, each of these two after its length |
| `VaultCrypto.LongPurposesAreAmbiguous` | services/vault/src/crypto.rs:127-149 | two different bindings with one encoding, when a purpose passes 255 bytes |
| `VaultCrypto.EncodesApartIff` | services/vault/src/crypto.rs:127-149 | bindings with purposes of at most N bytes have different associated data if and only if N is at most 255 |
| `VaultCrypto.ToBlob` | services/vault/src/crypto.rs:165-188 | the blob of every secret whose KEK id and wrapped key fit their length bytes, and the two errors otherwise |
| `VaultCrypto.BlobDetermines` | services/vault/src/crypto.rs:165-188 | two well-formed secrets with one blob are equal |
| `VaultCrypto.Take` | services/vault/src/crypto.rs:191-198 | the cursor yields the next bytes and moves past them, or fails and stays |
| `VaultCrypto.ReadKekId` | services/vault/src/crypto.rs:200-206 | the magic and the KEK id are read exactly when they are there and the id is text; an unknown magic is told apart |
| `VaultCrypto.ReadEnvelope` | services/vault/src/crypto.rs:207-221 | the rest is read exactly when it is as long as its length bytes say, with at least a tag |
| `VaultCrypto.ReadBlob` | services/vault/src/crypto.rs:190-222 | reading succeeds exactly on input long enough wherever its length bytes point, with the right magic and a textual KEK id |
| `VaultCrypto.FromBlob` | services/vault/src/crypto.rs:190-222 | the inverse of writing in both directions: it accepts exactly the blobs of well-formed secrets and returns that secret |
| `VaultCrypto.OpensForItsSubjectOnly` | services/vault/src/crypto.rs:331-394 | sealing then opening gives the plaintext for the same owner or binding; success for another is an explicit forgery |
| `VaultCrypto.OpensIffBothLayersDo` | services/vault/src/crypto.rs:366-394 | an envelope gives a plaintext exactly when its DEK opens under the KEK and the secret under that DEK, each with its own associated data |
| `VaultCrypto.TamperingIsDetected` | services/vault/src/crypto.rs:331-394 | whatever is changed in an envelope or in what it is opened with, opening fails or the cipher accepts something it did not encrypt |
| `VaultCrypto.SealData` | services/vault/src/crypto.rs:314-320 | the blob of the sealed plaintext, or an error when the KEK id is too long |
| `VaultCrypto.OpenData` | services/vault/src/crypto.rs:323-329 | opens the secret the blob is of, and fails on anything that is no blob |
| `VaultCrypto.SealThenOpen` | services/vault/src/crypto.rs:314-329 | through the blob: the plaintext under the same binding, and under another an error or an explicit forgery |
| `VaultCrypto.FingerprintInputDetermines` | services/vault/src/crypto.rs:396-408 | different lists of fields are different inputs to the keyed hash, however they are split |
| `VaultStore.KeyStore.constructor` | services/vault/src/store.rs:87-89 | empty tables are valid |
| `VaultStore.KeyStore.RegisterKek` | services/vault/src/store.rs:97-122 | the first KEK is registered for good; another one is refused and changes nothing |
| `VaultStore.KeyStore.Create` | services/vault/src/store.rs:124-235 | a retry is answered from its record; a second active key is refused unless it replaces the first, which is then revoked and loses its material; the record is written with the key; at whatever statement the database fails, nothing changes |
| `VaultStore.KeyStore.ReplayCreate` | services/vault/src/store.rs:237-266 | the recorded answer for the recorded fingerprint, a conflict for any other |
| `VaultStore.KeyStore.FindActive` | services/vault/src/store.rs:159-188 | finds an active key of the tenant and provider exactly when there is one |
| `VaultStore.KeyStore.FetchSealed` | services/vault/src/store.rs:284-332 | returns the tenant's key by id or the active one by provider, and the errors for missing and revoked ones |
| `VaultStore.KeyStore.Revoke` | services/vault/src/store.rs:359-385 | removes the material of the tenant's key; revoking again keeps the first reason; other tenants' keys are not found |
| `VaultStore.CreateKeepsValid` | services/vault/src/store.rs:159-229 | creating keeps at most one active key per tenant and provider, material exactly on active keys, and records that name stored keys |
| `VaultStore.RevokeKeepsValid` | services/vault/src/store.rs:359-385 | revoking keeps the same |
| `VaultService.StartKeepsInv` | services/vault/src/store.rs:97-122 | a process that starts serves only under the one registered KEK, and disturbs no key or record |
| `VaultService.RevokeKeepsInv` | services/vault/src/store.rs:359-385 | revoking leaves every other key's secret and every record as they were |
| `VaultService.CreateKeepsSecrets` | services/vault/src/service.rs:155-187 | after a create every active key still holds the secret it was made with, sealed for its own owner |
| `VaultService.CreateKeepsRecords` | services/vault/src/store.rs:124-266 | after a create every success ever answered is still on record |
| `VaultService.CreateKeepsInv` | services/vault/src/service.rs:138-197 | a create, new, replayed or failed, keeps tables, secrets and records consistent |
| `VaultService.RunInv` | services/vault/src/service.rs:138-239 | the tables, secrets and records stay consistent in every run of any number of processes |
| `VaultService.OneActiveKeyEach` | services/vault/src/store.rs:97-235 | in every run there is at most one KEK, at most one active key per tenant and provider, and material exactly on active keys |
| `VaultService.FetchedKeyOpens` | services/vault/src/service.rs:199-239 | in every run whatever a serving process fetches opens to exactly the secret the key was created with, or two given master keys share an id |
| `VaultService.RevokedForGood` | services/vault/src/store.rs:359-385 | a revoked key stays, without material, and never changes or becomes active again |
| `VaultService.RecordsStay` | services/vault/src/store.rs:124-235 | a record of a request never changes |
| `VaultService.SuccessIsOnRecord` | services/vault/src/store.rs:124-266 | every success with a request id is on record as answered, and is a replay exactly when it was on record before |
| `VaultService.RetriesNameOneKey` | services/vault/src/store.rs:124-266 | in every run all successes of one tenant and request id name the same key and replaced key, later ones as replays, and had the same payload, or two given payloads collide |
| `VaultService.RetryIsAnswered` | services/vault/src/store.rs:124-266 | in every run, unless the database fails, a later create with that request id gets the same key as a replay for the same payload under the same KEK, and a conflict for another payload, unless two given payloads collide |
| `VaultService.OnRecordIffSucceeded` | services/vault/src/store.rs:124-235 | in every run, with the database failing at any statement of any create, the requests on record are exactly those some create succeeded with |
| `VaultService.StoredIffMadeOnce` | services/vault/src/store.rs:124-235 | in every run the stored keys are exactly those made by a success that was no replay, each by exactly one |
| `VaultService.ActiveUntilEnded` | services/vault/src/store.rs:124-385 | in every run a key is active exactly until a revocation or a replacement that succeeded: a create that failed after rotating leaves the old key active |
| `VaultService.CreateDoesAsAsked` | services/vault/src/service.rs:155-187 | in every run a new key's row is the request's tenant, provider, text and caller; without replace_active every other key stays as it was; with it exactly the active key, if any, is replaced |
| `VaultService.CreateSucceedsIff` | services/vault/src/store.rs:159-188 | in every run, unless the database fails, a create not on record succeeds exactly when it asks to replace or there is no active key, and otherwise is told that one exists |
| `VaultService.RevokeDoesAsAsked` | services/vault/src/store.rs:359-385 | in every run a revocation takes the material of exactly the tenant's own active key, with its reason and actor, and reports the row or that it is not found |
| `VaultService.FetchAnswers` | services/vault/src/store.rs:284-332 | in every run a fetch succeeds with the tenant's own active key, tells a revoked one, and finds no other tenant's |
| `VaultService.PayloadSaysAll` | services/vault/src/service.rs:166-174 | the fingerprinted payload is the provider, the text, the secret and the flag, and no less |
| `DevicePolicy.FirstRunnableIsFirst` | daemons/mac-daemon/src/policy.rs:111-131 | filtering the matching rules finds the first rule that matches, needs no approval and covers the request |
| `DevicePolicy.MatchesMeans` | daemons/mac-daemon/src/policy.rs:65-69 | a rule matches its program with its arguments first, and others after them only if it allows extra ones |
| `DevicePolicy.DecisionMeans` | daemons/mac-daemon/src/policy.rs:111-131 | denied exactly for denied programs; run exactly when some rule allows it, with the first such rule covering the grants given; otherwise put up for approval with the grants requested, else those of the first matching rule, else none |
| `DeviceSandbox.BasePermits` | daemons/mac-daemon/src/sandbox.rs:22-32 | the base rules permit exactly what no grant gives |
| `DeviceSandbox.GrantPermits` | daemons/mac-daemon/src/sandbox.rs:34-47 | adding a grant's rules permits exactly what that grant adds |
| `DeviceSandbox.Allowances` | daemons/mac-daemon/src/sandbox.rs:60-74 | the steps write the base rules and then those of each grant, in order |
| `DeviceSandbox.AllowancesGive` | daemons/mac-daemon/src/sandbox.rs:60-74 | before protections, those rules permit exactly what the grants give |
| `DeviceSandbox.ProtectedNamesDiffer` | daemons/mac-daemon/src/sandbox.rs:75-82 | every protected path has a parameter of its own |
| `DeviceSandbox.ProtectOne` | daemons/mac-daemon/src/sandbox.rs:75-82 | one round of the loop protects one more path and changes nothing else |
| `DeviceSandbox.ProfileAllows` | daemons/mac-daemon/src/sandbox.rs:60-85 | under last match wins, the profile lets an access through exactly when the grants give it and it touches neither a protected path nor an environment file |
| `DeviceSandbox.NewProfile` | daemons/mac-daemon/src/sandbox.rs:60-85 | the loop writes exactly that profile, and so permits exactly those accesses |
| `DeviceSandbox.ProtectedIsOutOfReach` | daemons/mac-daemon/src/sandbox.rs:75-84 | whatever is granted and protected, the generated profile lets no protected path and no environment file be read or written |
| `DeviceSandbox.GrantsOnlyAdd` | daemons/mac-daemon/src/policy.rs:29-33 | the profile of grants that cover others lets through everything the profile of the others does |
| `DeviceSandbox.CoversIffProfileDoes` | daemons/mac-daemon/src/policy.rs:29-33 | grants cover others exactly when their profile lets through all that the others' does, where the working directory is not writable or protected anyway |
| `DeviceSandbox.EnvFileMeans` | daemons/mac-daemon/src/sandbox.rs:49-50 | an environment file is one named .env, or .env. and anything, in any folder |
| `DeviceSandbox.RunStaysWithinItsRule` | daemons/mac-daemon/src/policy.rs:111-131 | under its profile, a command decided to run can do nothing that the profile of some rule allowing it, with the rule's own grants, would not let it do |
| `DeviceApproval.EncodingDetermines` | daemons/mac-daemon/src/approval.rs:41-60 | the fingerprinted bytes determine program, arguments and their boundaries, directory, timeout to the millisecond and grants |
| `DeviceApproval.Fingerprint` | daemons/mac-daemon/src/approval.rs:41-60 | the loop feeds exactly those bytes to the hash |
| `DeviceApproval.PendingApprovals.constructor` | daemons/mac-daemon/src/approval.rs:166-172 | nothing is pending |
| `DeviceApproval.PendingApprovals.Issue` | daemons/mac-daemon/src/approval.rs:174-211 | drops exactly the expired, refuses exactly at capacity, and otherwise adds one entry for this command that expires after the time to live |
| `DeviceApproval.PendingApprovals.Redeem` | daemons/mac-daemon/src/approval.rs:215-241 | uses up the entry whatever the verdict, which is approved exactly for an unexpired entry of the same fingerprint and a signature over its payload |
| `DeviceService.IssueKeepsInv` | daemons/mac-daemon/src/service.rs:317-332 | issuing an approval keeps the state machine's invariant |
| `DeviceService.ExecuteKeepsInv` | daemons/mac-daemon/src/service.rs:299-339 | deciding, issuing and taking a slot keep it |
| `DeviceService.ApprovalJustifies` | daemons/mac-daemon/src/service.rs:340-345 | an accepted approval was issued for this command, unexpired and unused, or two given commands collide |
| `DeviceService.RuleJustifies` | daemons/mac-daemon/src/service.rs:299-307 | a command run without approval is covered by a rule |
| `DeviceService.ContinueKeepsInv` | daemons/mac-daemon/src/service.rs:340-364 | redeeming and starting keep it, also when other calls came in between |
| `DeviceService.StepKeepsInv` | daemons/mac-daemon/src/service.rs:277-364 | every step keeps it |
| `DeviceService.RunInv` | daemons/mac-daemon/src/service.rs:277-364 | the invariant holds in every state of every run |
| `DeviceService.EveryStartIsJustified` | daemons/mac-daemon/src/service.rs:299-354 | in every run every command started is not denied and is covered by a rule or by one unexpired approval issued for the same command, with the grants the policy puts up; no approval is used twice ever; running and pending stay within their limits |
| `DeviceService.OnlyARedeemingCallConsumes` | daemons/mac-daemon/src/service.rs:334-345 | a live approval is left in place by every step but a call that holds a slot and redeems it |
| `DeviceService.BusyDeviceTurnsAway` | daemons/mac-daemon/src/service.rs:334-339 | with all slots taken a call gets no slot, starts nothing and leaves every unexpired approval waiting |
| `DeviceService.GetsASlotIff` | daemons/mac-daemon/src/service.rs:299-339 | a request gets a slot exactly when one is free, its program is not denied, and a rule lets it run or it brings an approval |
| `DeviceService.IssuesIff` | daemons/mac-daemon/src/service.rs:317-332 | a request for approval is issued exactly when nothing lets the command run, none is brought, someone can approve and there is room; it is for that command and lasts the time to live |
| `DeviceService.HeldCallStartsIff` | daemons/mac-daemon/src/service.rs:340-354 | a call with a slot starts its command exactly when no approval is needed or the one it brings is waiting, unexpired, of the same fingerprint and signed; otherwise it gives the slot back |
| `DeviceService.ApprovedCommandStarts` | daemons/mac-daemon/src/service.rs:299-354 | from request to start: a command put up for approval and brought back in time with a good signature, while a slot is free, starts with the grants put up |
| `CommandDisplay.ReadQuoted` | daemons/mac-daemon/src/bin/jarvis-approve.rs:228-238 | a shell reads a quoted argument back as that argument, plain or with quotes inside |
| `CommandDisplay.ShownAsIsIff` | daemons/mac-daemon/src/bin/jarvis-approve.rs:228-238 | a word is shown without quotes exactly when it is not empty and all its characters are plain |
| `CommandDisplay.DisplayReadsBack` | daemons/mac-daemon/src/bin/jarvis-approve.rs:197-207 | reading the displayed command by the quoting rules of section 2.2 of the POSIX Shell Command Language gives back the program and arguments |
| `CommandDisplay.DisplayIsUnambiguous` | daemons/mac-daemon/src/bin/jarvis-approve.rs:197-207 | different commands are never displayed the same |
| `AppSessions.Store.constructor` | services/app-api/internal/store/store.go:66-69 | no sessions and no codes |
| `AppSessions.Store.RedeemPairingCode` | services/app-api/internal/store/store.go:161-179 | succeeds exactly for an unused, unexpired code, uses it up and creates its owner's session; otherwise nothing changes |
| `AppSessions.Store.Refresh` | services/app-api/internal/store/store.go:191-227 | rotates the current token, retries the previous one within grace without extending it, ends the session of a previous one after it, and finds nothing otherwise |
| `AppSessions.Store.SignOut` | services/app-api/internal/store/store.go:236-244 | ends the live session that holds the token, if there is one, as signed out |
| `AppSessions.Store.Revoke` | services/app-api/internal/store/store.go:258-262 | ends exactly the user's own live session, for the reason given |
| `AppSessions.Store.Purge` | services/app-api/internal/store/store.go:265-280 | removes exactly the codes that expired, and the sessions that were ended or else expired, longer ago than the time to keep |
| `AppSessions.AcceptedKeepsSessions` | services/app-api/internal/store/store.go:191-227 | a refresh keeps sessions' tokens apart, and each session's tokens known and alive |
| `AppSessions.AcceptedKeepsLog` | services/app-api/internal/store/store.go:191-227 | a refresh keeps the history sound: one exchange per token, retries within its grace |
| `AppSessions.RefreshKeepsInv` | services/app-api/internal/store/store.go:191-227 | every outcome of a refresh, not found included, keeps the invariant |
| `AppSessions.FreshNeverConflicts` | services/app-api/internal/store/store.go:191-227 | with fresh tokens no refresh ever fails on the uniqueness of tokens |
| `AppSessions.StepKeepsInv` | services/app-api/internal/store/store.go:161-280 | every operation keeps the invariant |
| `AppSessions.RunInv` | services/app-api/internal/store/store.go:161-280 | the invariant holds in every state of every run |
| `AppSessions.ExchangedOnceRetriedInGrace` | services/app-api/internal/store/store.go:191-227 | in every run each token is exchanged as current at most once, and all its retries fall in the one grace period after that |
| `AppSessions.DeadStaysDead` | services/app-api/internal/store/store.go:191-227 | a token superseded twice or dropped by a retry never comes back |
| `AppSessions.DeadTokensFindNothing` | services/app-api/internal/store/store.go:191-227 | in every run such a token finds nothing and changes nothing |
| `AppSessions.EndedForGood` | services/app-api/internal/store/store.go:191-262 | in every run an ended session stays ended and unchanged until it is purged, and its id is not used again |
| `AppSessions.RefreshAnswersRightly` | services/app-api/internal/store/store.go:191-227 | in every run a refresh is answered, and changes the row, exactly by what the row and the time of exchange say: the current token rotates and renews the expiry, the previous one is retried within grace without moving either time, after that it ends the session as reused, and anything else finds nothing |
| `AppSessions.ReuseEndsTheSession` | services/app-api/internal/store/store.go:219-223 | in every run the previous token of a live session, presented when its grace is over, ends that session on the spot |
| `AppSessions.EndedTokensFindNothing` | services/app-api/internal/store/store.go:191-227 | in every run no token a session held when it was ended is ever accepted again |
| `AppSessions.PairedIsInStep` | services/app-api/internal/store/store.go:161-179 | a device just paired holds its session's current token, which no other session holds |
| `AppSessions.ReachesItsOwn` | services/app-api/internal/store/store.go:191-227 | a client's token finds exactly its own session, and finds it exactly while that is neither ended nor expired |
| `AppSessions.ClientStaysInStep` | services/app-api/internal/store/store.go:191-227 | a client that sends the last token it received, within grace of the exchange it may have missed, is never told its token was reused, whether or not the reply arrives, and whether or not its session still exists |
| `AppSessions.OthersLeaveInStep` | services/app-api/internal/store/store.go:161-280 | operations on other tokens, sign-outs, revocations and purges leave that so |
| `AppSessions.ClientRunInStep` | services/app-api/internal/store/store.go:191-227 | in every run the session of such a client holds the token the client will send next, as current or as previous |
| `AppSessions.CarefulClientIsNeverEnded` | services/app-api/internal/store/store.go:191-227 | in every run with any other operations in between, such a client's session is never ended as reused; it is told not found exactly when its session is ended, expired or gone |
| `RateLimit.Limiter.constructor` | services/app-api/internal/ratelimit/ratelimit.go:29-31 | starts empty with the given burst and rate, and is valid exactly when neither is negative |
| `RateLimit.Limiter.Allow` | services/app-api/internal/ratelimit/ratelimit.go:34-53 | makes room, refills by elapsed time up to the burst, takes one token when there is one; a valid limiter stays valid, its map within its limit |
| `RateLimit.Limiter.Sweep` | services/app-api/internal/ratelimit/ratelimit.go:57-66 | the loop drops exactly the full buckets, or everything when that frees nothing |
| `RateLimit.AllowedKeepsValid` | services/app-api/internal/ratelimit/ratelimit.go:34-66 | tokens stay between nothing and the burst and the map never exceeds its limit |
| `RateLimit.RunIsValid` | services/app-api/internal/ratelimit/ratelimit.go:34-66 | the same in every state of every run |
| `RateLimit.DroppingChangesNoAnswer` | services/app-api/internal/ratelimit/ratelimit.go:57-66 | dropping full buckets gives the answer of a limiter that keeps all, and what is dropped is full there |
| `RateLimit.SameAnswersAsKeepingAll` | services/app-api/internal/ratelimit/ratelimit.go:34-66 | in every run in which the map was not cleared, every answer is the one of a limiter that never drops a bucket |
| `RateLimit.OneRequest` | services/app-api/internal/ratelimit/ratelimit.go:34-53 | an allowed request costs its address one token; only clearing the map gives tokens, at most a burst |
| `RateLimit.AllowedPlusAvailable` | services/app-api/internal/ratelimit/ratelimit.go:34-66 | over any stretch of a run, allowed requests plus tokens left are at most the bursts plus what accrued |
| `RateLimit.AllowedAtMost` | services/app-api/internal/ratelimit/ratelimit.go:34-66 | in every run the requests allowed for one address in any interval are at most the burst, once more per clearing of the map, plus the rate times the interval |
| `RateLimit.AllowedIff` | services/app-api/internal/ratelimit/ratelimit.go:34-66 | in every run a request is allowed exactly when its address has a token by its own account: a burst, the rate times each gap given back up to the burst, one taken per request allowed; and all is forgotten exactly when as many addresses as fit are short of a burst and another asks |
| `RateLimit.SilentIsAllowed` | services/app-api/internal/ratelimit/ratelimit.go:46-52 | with a burst of at least one, an address silent for as long as a token takes to come back is allowed |
| `KnowledgeGraph.ParseRelations` | services/knowledge/src/jarvis_knowledge/model.py:285-312 | accepted exactly when every relation has two valid, different ends and a weight from 0 to 1; the ends become entities, and the last input for a link is its claim |
| `KnowledgeGraph.ClaimsSay` | services/knowledge/src/jarvis_knowledge/model.py:294-312 | each link is claimed with the fact and weight of the last input about it, the weight one half when not given |
| `KnowledgeGraph.AddSourceAdds` | services/knowledge/src/jarvis_knowledge/graph.py:45 | a new source is added once and keeps every other, except the oldest when there are 64 |
| `KnowledgeGraph.DropSourceDrops` | services/knowledge/src/jarvis_knowledge/graph.py:104 | removes that source and nothing else |
| `KnowledgeGraph.Store.constructor` | services/knowledge/src/jarvis_knowledge/graph.py:188-191 | an owner starts with nothing stored |
| `KnowledgeGraph.Store.Upsert` | services/knowledge/src/jarvis_knowledge/graph.py:200-254 | the graph becomes the upserted graph: entities first, then relations between stored entities |
| `KnowledgeGraph.Store.UpsertEntities` | services/knowledge/src/jarvis_knowledge/graph.py:36-49 | row by row, in any order, every entity named gains the source and the others stay |
| `KnowledgeGraph.Store.UpsertRelations` | services/knowledge/src/jarvis_knowledge/graph.py:51-63 | row by row, in any order, every claim whose ends are stored is counted and the other relations stay |
| `KnowledgeGraph.Store.ForgetSource` | services/knowledge/src/jarvis_knowledge/graph.py:327-342 | the graph becomes the one without the source, and the deleted relations and entities are returned |
| `KnowledgeGraph.Store.ForgetRelations` | services/knowledge/src/jarvis_knowledge/graph.py:101-112 | row by row, the source leaves every relation, those left without one are deleted, and exactly the ends of the relations concerned are returned |
| `KnowledgeGraph.Store.DeleteEntity` | services/knowledge/src/jarvis_knowledge/graph.py:126-132 | removes the entity with all its relations and counts them, or reports that it is unknown |
| `KnowledgeGraph.UpsertKeepsSound` | services/knowledge/src/jarvis_knowledge/graph.py:36-63 | an upsert keeps sources distinct and at most 64, relations with a source, stored ends and a weight from 0 to 1 |
| `KnowledgeGraph.UpsertKeepsRooted` | services/knowledge/src/jarvis_knowledge/graph.py:36-63 | an upsert leaves no entity without a source or a relation |
| `KnowledgeGraph.UpsertSupportedIff` | services/knowledge/src/jarvis_knowledge/graph.py:36-63 | after an upsert every source of a relation is still a source of both its ends exactly when no entity past its limit drops a source its relations keep |
| `KnowledgeGraph.SixtyFifthSourceLosesSupport` | services/knowledge/src/jarvis_knowledge/graph.py:45 | a run of 65 upserts, from nothing, whose last makes an entity drop a source its relation still names |
| `KnowledgeGraph.ForgettingForgets` | services/knowledge/src/jarvis_knowledge/graph.py:101-124 | forgetting leaves no trace of the source, removes exactly the relations only it supported and exactly the entities nothing else keeps, and leaves the rest as it was |
| `KnowledgeGraph.ForgetKeepsSound` | services/knowledge/src/jarvis_knowledge/graph.py:101-124 | forgetting keeps relations with a source and stored ends |
| `KnowledgeGraph.ForgetKeepsRooted` | services/knowledge/src/jarvis_knowledge/graph.py:114-124 | forgetting leaves no entity without a source or a relation |
| `KnowledgeGraph.ForgetKeepsSupported` | services/knowledge/src/jarvis_knowledge/graph.py:101-124 | forgetting keeps every source of a relation a source of its ends |
| `KnowledgeGraph.DeleteKeepsSound` | services/knowledge/src/jarvis_knowledge/graph.py:126-132 | deleting an entity leaves no relation without its ends |
| `KnowledgeGraph.DeleteKeepsRootedIff` | services/knowledge/src/jarvis_knowledge/graph.py:126-132 | deleting an entity leaves another with nothing to keep it exactly when that one had no source and no relation but to the deleted one |
| `KnowledgeGraph.DeletingMayUproot` | services/knowledge/src/jarvis_knowledge/graph.py:101-132 | a run from nothing, of upserts past the limit and forgets, that ends with a delete leaving an entity that nothing keeps |
| `KnowledgeGraph.RunIsSound` | services/knowledge/src/jarvis_knowledge/graph.py:200-349 | in every run of upserts, forgets and deletes, sources are distinct and bounded and relations have a source, stored ends and a probability |
| `KnowledgeGraph.RunIsSupported` | services/knowledge/src/jarvis_knowledge/graph.py:200-349 | in every run where no entity drops a source its relations keep, every source of a relation is a source of both its ends |
| `KnowledgeGraph.RunIsRooted` | services/knowledge/src/jarvis_knowledge/graph.py:200-349 | in every such run, and in every run without deletes, no entity is left without a source or a relation |
| `KnowledgeGraph.DoubtOf` | services/knowledge/src/jarvis_knowledge/graph.py:58 | the product over sources does not depend on the order they are taken in |
| `KnowledgeGraph.ClaimWeighsIff` | services/knowledge/src/jarvis_knowledge/graph.py:57-60 | a claim leaves the weight 1 minus the product over distinct sources exactly when its source was not heard and dropped before, or has nothing to add |
| `KnowledgeGraph.WeightIsNoisyOr` | services/knowledge/src/jarvis_knowledge/graph.py:51-63 | in every run of upserts, forgets and deletes in which no source is heard, dropped and heard again, a weight is 1 minus the product of (1 - w) over the sources heard since the relation was created, whatever their order and repeats |
| `KnowledgeGraph.FewSourcesStayListed` | services/knowledge/src/jarvis_knowledge/graph.py:51-63 | without forgets or deletes, up to 64 sources that claimed a relation are all listed, each once |
| `KnowledgeGraph.WeightOverDistinctSources` | services/knowledge/src/jarvis_knowledge/graph.py:51-63 | in every run of upserts, a relation claimed by up to 64 sources has the weight 1 minus the product of (1 - w) over the distinct sources, whatever the order and repeats of claims |
| `KnowledgeGraph.ReturningSourceCountsTwice` | services/knowledge/src/jarvis_knowledge/graph.py:101-112 | a source forgotten and heard again raises the weight a second time |
| `KnowledgeGraph.FactIsLastSaid` | services/knowledge/src/jarvis_knowledge/graph.py:56-61 | in every run a relation's fact is the last one given for it that is not empty since it was created, and empty if none was |
| `ContextPacker.AddSection` | services/knowledge/src/jarvis_knowledge/retrieval.py:195-205 | collecting a section keeps the first candidate of every distinct line |
| `ContextPacker.Choose` | services/knowledge/src/jarvis_knowledge/retrieval.py:207-215 | the loop's choice per section, cost and truncation are those of the greedy plan |
| `ContextPacker.Consider` | services/knowledge/src/jarvis_knowledge/retrieval.py:210-215 | one candidate is taken exactly when its line, and its section's header if it is the first there, still fit |
| `ContextPacker.KeepChosen` | services/knowledge/src/jarvis_knowledge/retrieval.py:217-220 | a result's list keeps, in order, exactly the items chosen |
| `ContextPacker.RenderBlock` | services/knowledge/src/jarvis_knowledge/retrieval.py:222-226 | a section is its header and its chosen lines in the order chosen: sorting them again changes nothing |
| `ContextPacker.Pack` | services/knowledge/src/jarvis_knowledge/retrieval.py:190-228 | the result is the greedy plan over the distinct lines by falling score, kept, rendered and measured |
| `ContextPacker.FirstOnesAreAllLines` | services/knowledge/src/jarvis_knowledge/retrieval.py:195-205 | candidates' lines differ, and every retrieved line is one of them |
| `ContextPacker.FirstOnesComeFirst` | services/knowledge/src/jarvis_knowledge/retrieval.py:195-205 | of equal lines the one retrieved first is the candidate |
| `ContextPacker.ConsideredByScore` | services/knowledge/src/jarvis_knowledge/retrieval.py:209 | candidates are considered by falling score, and equal ones in the order retrieved |
| `ContextPacker.GreedyPicks` | services/knowledge/src/jarvis_knowledge/retrieval.py:207-215 | picks are distinct candidates in order within the budget; truncated exactly when one is left out; one left out would still not fit beside all that was picked |
| `ContextPacker.GreedyDecides` | services/knowledge/src/jarvis_knowledge/retrieval.py:207-215 | a candidate is taken exactly when it, with its header if first, fits beside those taken before it; used is what the picks cost |
| `ContextPacker.GreedyIsBestFirst` | services/knowledge/src/jarvis_knowledge/retrieval.py:209-215 | no other choice within the budget takes a line where the plan, having chosen the same before it, does not |
| `ContextPacker.KeptAreThosePicked` | services/knowledge/src/jarvis_knowledge/retrieval.py:217-220 | each kept list is the subsequence of items at the positions picked |
| `ContextPacker.PickedStandForItems` | services/knowledge/src/jarvis_knowledge/retrieval.py:200-205 | a pick has the line and the score of the item at its position |
| `ContextPacker.TokensCoverSize` | services/knowledge/src/jarvis_knowledge/model.py:79-85 | costs rounded up per line and header cover the bytes they stand for |
| `ContextPacker.EstimateIsCeiling` | services/knowledge/src/jarvis_knowledge/model.py:79-85 | the estimate is the bytes over four, rounded up |
| `ContextPacker.ContextLength` | services/knowledge/src/jarvis_knowledge/retrieval.py:222-227 | the rendered context is one byte shorter than its headers and lines with a newline each |
| `ContextPacker.ContextReads` | services/knowledge/src/jarvis_knowledge/retrieval.py:222-227 | the context is, joined by newlines, each section's header followed by its picked lines |
| `ContextPacker.SplitJoin` | services/knowledge/src/jarvis_knowledge/retrieval.py:226-227 | cutting joined lines at newlines gives them back, if none holds one |
| `ContextPacker.WithinBudget` | services/knowledge/src/jarvis_knowledge/retrieval.py:190-228 | for every retrieval and non-negative budget, the estimate of the whole context is within the budget |
| `ContextPacker.EachLineOnceOrTruncated` | services/knowledge/src/jarvis_knowledge/retrieval.py:190-228 | no line appears twice, truncated is set exactly when some retrieved line is missing, and a missing line does not fit beside what is there |

## Left out

- The recorder in Rust and in TypeScript (services/vault/src/audit.rs, apps/dashboard/src/server/audit.ts): the same protocol as the Go one.
- Which events are valid: a fixed predicate here, so the clock-skew check (services/audit/internal/server/server.go:110) does not change its answer between retries.
- A commit whose acknowledgement is lost: what a create answers is what its transaction did.
- Interleavings inside Record between its closed check and its enqueue, and inside one database transaction: each is one step.
- Recorder.Dropped as a count: a refused event of a retried batch is counted again.
- AuditServer.Record: the checks of one event's fields are a parameter that reads it or refuses it.
- AuditDelivery.TrailHoldsEachOnceInOrder: an event stands for what the service reads it as, so two spellings of one id are one event; ids are fresh.
- AuditRecorder.Recorder.Close: the wait for the loop to finish, and its deadline, are not modelled.
- AuditListing.ListEvents: the JSON decoder is a parameter that reads what the encoder wrote; the checks of the filter's fields are not modelled.
- Internals of SHA-256, HMAC, HKDF, Argon2, AES-GCM, ECDSA, JWT and TLS, and the check that bytes are UTF-8: parameters.
- Database engines, migrations, connection pools, listing of keys, sessions and heads.
- Checks of labels, secrets, arguments and timeouts before a request is decided: they refuse a request and nothing else.
- DeviceSandbox.NewProfile: the profile is its list of rules and parameters, not its text; paths are byte strings already resolved.
- Resolving programs and directories, spawning processes, signals and output limits of the daemon; `DeviceService` starts a command in one step and ends it in another.
- CommandDisplay.DisplayReadsBack: covers the quoted command line, not the other lines shown to the approver.
- Device names and last-use times of sessions.
- RateLimit.AllowedAtMost: speaks of valid limiters; one built with a negative burst or rate is modelled but not bounded.
- Creating pairing codes' secrets, push tokens and access tokens.
- KnowledgeGraph.Store.Upsert: models one owner's graph, since every query is bound to one tenant and owner; names, aliases, descriptions and times are left out.
- KnowledgeGraph.Store.UpsertEntities: keeps an entity's sources only, not its name, aliases and description.
- KnowledgeGraph.ParseRelations: whether a reference is valid is part of the input, and the entities it may add are keys.
- Deleting a whole owner, passages and their vector index.
- Embedding, scoring and language-model calls; the lines of a context are given.
- The claim that whatever extraction returns is accepted (services/agent/src/jarvis_agent/extract.py:5-8), which does not hold as written.
- Dashboard, iOS shell, configuration, metrics and logging.

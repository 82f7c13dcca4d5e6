# omnistash, verified

A Dafny model of the omnistash OCI registry and proofs about it.  The registry keeps two
stores that must agree: a content-addressed file store, where committing a blob is a hard
link from a staging name to a digest name, and a SQLite metadata store with one row per
blob, manifest and referrer of a namespace.

`dafny verify dfyconfig.toml` verifies the project.

## How it is laid out

- `Digests`, `FileSystem`: digests as text, any streaming hash as a fold over bytes, and names bound to inodes with the system calls that change them.
- `Interleaving`, `Conservation`: the file store as a transition system whose steps are single system calls of any number of concurrent calls; a call between two steps is a program counter with its open descriptor and its hash in progress.
- `QuietRuns`: content-address safety when appends are kept off finalizes.
- `AppendRaces`: the same system without any assumption about what overlaps, and exactly which steps and runs keep it content-addressed.
- `LoneCalls`: run alone, those system calls do exactly what `BlobStoreSpec` says.
- `Linearization`: at which single step of it a commit or a removal takes effect.
- `VacuumPool`: the deletion worker pool as a transition system: mutex, channel variable, bounded queue, workers, reply channels, stop closures and restarts; `VacuumReplies`: what is carried out and answered, counted over its runs.
- `BlobStoreSpec`, `BlobStore`: each file store call as a function of the files and of what the operating system lets succeed, and the class whose methods go through the same steps as the code and are proved equal to it; `StoreOutcomes`: when each call succeeds, when it reports which error, and what there is to read afterwards.
- `Metastore`, `Manifests`, `ReferrerIndex`, `ReferrerFilter`: the tables under their primary keys, the statements, transactions, and what they say over whole histories.
- `Services`, `ServiceObjects`, `Uploads`: the service calls on both stores, as functions and as objects that call the two stores; `ServiceOutcomes`: what each promises its caller.
- `JointStores`, `JointInvariant`: the two stores when service calls interleave at every store call, exactly which steps keep them in agreement, and that they agree over whole runs.
- `ServiceRuns`: each service call is a run of that system.
- `Isolation`: one namespace's share of the stores, and its independence of all others.
- `Directories`, `StagingVacuum`, `BatchDelete`: the directory tree, the two nested walks of the staging vacuum, and batch deletion.
- `NameGrammar`, `Paths`, `Urls`, `Ranges`: the codecs that make the keys sound.

Collision freedom of the hash is a hypothesis (`CollisionFree`) of exactly the lemmas that
need it, limited to the byte strings offered.  Every store call may fail at every step:
an environment record per call says which system calls succeed, how much of a copy is
written, and what befalls the transaction.

## What the code does not keep

These are statements about the code that turned out false.  Each has a lemma that shows
the failure, and a lemma that says exactly when the code is right.

- A failed unlink after a commit is only logged (`internal/blobstore/fs/stream.go:166-178`), so the session goes on sharing the committed blob's inode; an append to it changes the blob.  An append that overlaps a finalize can do so too, because the size check and the write are not one step (`stream.go:71-80`); one that falls between verification and link makes the link commit bytes that do not match.
- `MonolithicUpload` deletes a blob it did not store when its transaction fails (`internal/blob/upload.go:68-69`); `mountBlobCopy` does not (`upload.go:338`).
- Every compensating delete, of a mount or a commit too, can take a file that another upload has found and recorded meanwhile.
- `DeleteManifest` removes the file even when a blob row of the namespace still needs it (`internal/manifest/service.go:152`).
- An upload overtaken by the deletion and re-creation of its namespace deletes the file of the new namespace's row.
- `InsertManifest` does not resurrect, while `UpsertReferrer` does: a manifest put again after its deletion is listed as a referrer for ever but cannot be fetched.
- `CommitUpload` of a digest already committed reports an error and records no row, where `MonolithicUpload` succeeds.
- A range that runs backwards beyond the largest int64 is answered 416 instead of being ignored, because both bounds saturate to one position.
- A namespace named `ns/<alg>/<hex>` needs a directory where a blob of `ns` is a file; the name grammar allows it.

Read from the source and part of the model, without a lemma of their own:

- `PutBlob` reports `ErrSizeInvalid` when the staging directory or file cannot be created and the size is not 0, because the size is compared before the error is looked at (`internal/blobstore/fs/store.go:113-122`).
- The guard against paths that escape their directory refuses any entry whose name merely begins with two dots (`internal/blobstore/fs/vacuum.go:229`).  Upload ids never do.
- A store whose prefix is itself called `.staging` counts as one staging directory.
- `DeleteBlob` fails unless `StartVacuumProcess` was called, and `cmd/omnistash/main.go` does not call it.

## Model

| member | source | states |
|---|---|---|
| QuietRuns.ContentAddressSafety | internal/blobstore/fs/stream.go:44-189 | After every interleaving of the system calls of any number of puts, appends, finalizes, cancels, deletes and vacuum removals, any of which may fail, each digest name holds bytes that hash to it, provided no append is in flight on a session that is being finalized or whose unlink after a commit failed |
| QuietRuns.StepKeepsInv | internal/blobstore/fs/store.go:50-203 | Each single system call of a quiet run keeps the invariant behind that: open appends write to no committed file, what a finalize verified is all its session holds, and a session whose file is committed is about to be unlinked or left over |
| AppendRaces.StepSafeExactly | internal/blobstore/fs/stream.go:44-189 | From any safe state, whatever is in flight: a write keeps the store safe if and only if it writes nothing or no digest name shares the inode, a link if and only if it fails, finds the digest taken or binds it to bytes that still match, and every other system call always does |
| AppendRaces.SafeThroughoutExactly | internal/blobstore/fs/stream.go:71-178 | Over whole runs, with no assumption about what overlaps: the store is safe after every step if and only if no append writes to a committed blob and none writes to a session between the verification and the link of a finalize that commits it |
| AppendRaces.StepStands | internal/blobstore/fs/stream.go:44-189 | What each system call keeps in every run: private files belong to one put, their hashes are the hashes of their bytes, files only grow, and what a finalize verified is a prefix of what its session holds |
| AppendRaces.SinceVerified | internal/blobstore/fs/stream.go:109-178 | What a finalize verified was all its session held at some earlier time, and if the session holds more now, an append wrote to it since |
| AppendRaces.WriteBeforeLinkBreaks | internal/blobstore/fs/stream.go:109-178 | A concrete run in which an append writes between verification and link, and the link commits bytes that do not match |
| Interleaving.OverlapBreaksSafety | internal/blobstore/fs/stream.go:71-128 | A concrete run in which an append overlaps the finalize of its session and a committed blob changes |
| Interleaving.FailedUnlinkBreaksSafety | internal/blobstore/fs/stream.go:166-178 | A concrete sequential run in which the unlink after a commit fails, which is only logged, and a later append changes the committed blob |
| AppendRaces.WriterStands | internal/blobstore/fs/store.go:142-182 | The hash computed over the tee stays the hash of what is in the staging file |
| AppendRaces.FinalizeReadsStand | internal/blobstore/fs/stream.go:130-164 | The hash of the re-read staging file grows with the read position, whatever the sizes of the reads |
| Digests.AbsorbConcat | internal/blobstore/digest.go:19-26 | Hashing two chunks one after the other is hashing their concatenation, for any streaming hash |
| LoneCalls.AppendAlone | internal/blobstore/fs/stream.go:44-91 | The system calls of an append with no other call in between can end with exactly the files BlobStoreSpec.AppendBlobChunk allows, over all chunks, failures and sizes of writes |
| LoneCalls.FinalizeAlone | internal/blobstore/fs/stream.go:109-178 | The same for a finalize, in files and in report |
| LoneCalls.PutAlone | internal/blobstore/fs/store.go:50-203 | The same for a put, in files and in report |
| LoneCalls.CancelAlone | internal/blobstore/fs/stream.go:180-189 | The same for a cancel |
| LoneCalls.DeleteAlone | internal/blobstore/fs/deleter.go:25-52 | The same for a delete |
| Linearization.CommitIsAtomic | internal/blobstore/fs/store.go:184-203 | The link is the one step at which a commit takes effect: the verified bytes are what the digest holds from then on, or the digest was taken and nothing changes; and this decides what the call reports |
| Digests.ValidDigestExactly | internal/blobstore/digest.go:10-17 | A digest is valid if and only if it is sha256, sha384 or sha512, a colon, and 64, 96 or 128 lower-case hex digits; and it reads so in one way |
| Linearization.RemovalIsAtomic | internal/blobstore/fs/deleter.go:25-52 | The unlink of the digest name is the one step at which a removal takes effect |
| Linearization.NothingElseShows | internal/blobstore/fs/stream.go:44-189 | No other system call of any call changes a committed file, so the bytes under a digest never change while they are there |
| Conservation.CommitsMinusRemovals | internal/blobstore/fs/store.go:184-203 | In every interleaving, calls that reported a commit of a digest minus removals of it is 1 if the blob is present and 0 if not |
| Conservation.ExactlyOneCommitSucceeds | internal/blobstore/fs/stream.go:166-178 | Of the commits of one digest that reach link between two removals, the first reports success and all others report ErrBlobCommitted |
| Conservation.FirstCommitWins | internal/blobstore/fs/store.go:184-203 | In any log in which links, rejections and removals alternate as link(2) and unlink(2) allow, the first commit after a removal is the one that stores |
| VacuumPool.NoPanic | internal/blobstore/fs/vacuum.go:52-88 | In every reachable state, for any number of callers, workers and generations: nothing is sent on a closed channel, no channel is closed twice, a channel is empty when it is closed, and the guard m.jobs == jobs is true whenever it is evaluated |
| VacuumPool.AnsweredExactlyOnce | internal/blobstore/fs/vacuum.go:114-128 | In every reachable state the answers sent for a command number one if its removeBatch got a result, and otherwise none |
| VacuumReplies.AnsweredIsCarriedOut | internal/blobstore/fs/vacuum.go:52-129 | Counted over every run from the empty pool: a call that has its worker's reply has had exactly one removal for each of its paths, never more, none before a worker took its command, and no command is taken twice |
| VacuumReplies.ReturnsWhatWasSettled | internal/blobstore/fs/vacuum.go:90-129 | Over every run, each removeBatch is told one thing once and returns it: not started, nothing to do, the directory did not open, the context ended, or its worker's answer; with any but the last no path was removed for it |
| VacuumReplies.PoolIsComplete | internal/blobstore/fs/vacuum.go:52-72 | A Start that returned a stop closure has started exactly as many workers as the pool is to have |
| VacuumPool.RootOpenWhileUsed | internal/blobstore/fs/vacuum.go:99-112 | While a worker removes paths its caller still waits, so the directory handle is open, and no other worker holds the same command |
| VacuumPool.NothingRemovedAfterStop | internal/blobstore/fs/vacuum.go:73-87 | Once a stop closure has returned, every worker of that generation has exited |
| VacuumPool.ClosesEmptyQueue | internal/blobstore/fs/vacuum.go:75-80 | A stop closure that holds the mutex finds its own open channel installed, an empty queue and no reader |
| VacuumPool.NeverStuck | internal/blobstore/fs/vacuum.go:52-129 | While any Start, removeBatch or stop has not returned, some step other than a new arrival is possible |
| VacuumPool.StepDecreases | internal/blobstore/fs/vacuum.go:52-129 | Every step other than an arrival lowers a measure over queued, running and answered commands, and an arrival adds only its own weight |
| VacuumPool.MovesAreBounded | internal/blobstore/fs/vacuum.go:52-129 | In every run, under every schedule, the arrivals bound the number of steps taken |
| VacuumPool.EveryCallReturns | internal/blobstore/fs/vacuum.go:52-129 | A run that can go no further without new arrivals has returned from every call, after boundedly many steps |
| BlobStore.FilesystemBlobStore.PutBlob | internal/blobstore/fs/store.go:50-80 | Step by step through the staging file and its deferred removal, with any failure at any step: files and result are those of BlobStoreSpec.PutBlob |
| BlobStore.FilesystemBlobStore.WriteBlob | internal/blobstore/fs/store.go:101-140 | The staged bytes, and which of size, copy, sync and digest errors is reported first |
| BlobStore.FilesystemBlobStore.WriteToStaging | internal/blobstore/fs/store.go:142-182 | How many bytes reach the file and the hash when a copy stops short |
| BlobStore.FilesystemBlobStore.LinkStagedFile | internal/blobstore/fs/store.go:184-203 | The digest name is bound to the staged inode unless it is taken |
| BlobStore.FilesystemBlobStore.StatBlob | internal/blobstore/fs/store.go:82-99 | The committed size, or the error for a malformed digest, an absent blob or a failed stat |
| BlobStore.FilesystemBlobStore.InitiateBlobUpload | internal/blobstore/fs/stream.go:17-42 | An empty session under a fresh id, left behind when only the close fails |
| BlobStore.FilesystemBlobStore.AppendBlobChunk | internal/blobstore/fs/stream.go:44-91 | The chunk goes at the end only when the offset is the session's length; a failed copy leaves what was written |
| BlobStore.FilesystemBlobStore.VerifyStagingBlob | internal/blobstore/fs/stream.go:130-164 | Length, then digest of the re-read file |
| BlobStore.FilesystemBlobStore.FinalizeBlobUpload | internal/blobstore/fs/stream.go:109-128 | Verify, link, unlink: files and result are those of BlobStoreSpec.FinalizeBlobUpload |
| BlobStore.FilesystemBlobStore.CancelBlobUpload | internal/blobstore/fs/stream.go:180-189 | The session's name goes; an absent one is no error |
| BlobStore.FilesystemBlobStore.DeleteBlob | internal/blobstore/fs/deleter.go:25-52 | Removal through the pool, with the errors of a cancelled context, a pool that was not started and an absent blob |
| StoreOutcomes.PutOutcome | internal/blobstore/fs/store.go:50-203 | A put succeeds if and only if nothing fails, the size and the digest are those of the bytes, and the digest is new; then the digest holds the bytes; which error is reported exactly when |
| StoreOutcomes.PutLeavesRest | internal/blobstore/fs/store.go:50-140 | Whatever a put reports, every file that was there still holds what it held, and nothing new appears but the blob of a success or a staging file that could not be removed |
| StoreOutcomes.StatOutcome | internal/blobstore/fs/store.go:82-99 | Success exactly for a committed digest, with the length of its file; a malformed digest and an absent blob are told apart |
| StoreOutcomes.GetOutcome | internal/blobstore/fs/reader.go:15-43 | Success exactly for a committed digest that opens, with all its bytes |
| StoreOutcomes.InitiateOutcome | internal/blobstore/fs/stream.go:17-42 | A new session is empty, under the id reported, beside everything that was there |
| StoreOutcomes.AppendOutcome | internal/blobstore/fs/stream.go:44-91 | An append succeeds if and only if the offset is the session's length and nothing fails; then the session holds its old bytes and the new ones and its length is reported; ErrRangeNotSatisfiable if and only if the length is not the offset, and then nothing changes |
| StoreOutcomes.OffsetOutcome | internal/blobstore/fs/stream.go:93-107 | The offset reported is the session's length; an absent session is told apart |
| StoreOutcomes.FinalizeOutcome | internal/blobstore/fs/stream.go:109-178 | A finalize succeeds if and only if the session has the size and digest announced and the digest is new; then the digest holds what the session held; which error is reported exactly when, and that the others change nothing |
| StoreOutcomes.CancelOutcome | internal/blobstore/fs/stream.go:180-189 | A cancel succeeds if and only if the session's name is gone afterwards; every other name stays |
| StoreOutcomes.DeleteOutcome | internal/blobstore/fs/deleter.go:25-52 | A delete succeeds if and only if it removed the file; every other file stays |
| Metastore.AllOrNothing | internal/metastore/sqlite/store.go:64-105 | A transaction commits if and only if begin, commit and every statement succeeded without cancellation or panic; then all statements took effect, otherwise none |
| Metastore.SQLiteMetadataStore.Atomic | internal/metastore/sqlite/store.go:64-105 | Statements change a copy of the tables, which replaces the tables only on commit |
| Metastore.SqliteTx.InsertNamespaceBlob | internal/metastore/sqlite/blob.go:44-61 | Resurrect, then insert-or-ignore: the row is active and keeps its first size; a missing namespace is rejected |
| Metastore.OnlyOwnRowChanges | internal/metastore/sqlite/sql.go:4-58 | No statement changes a row under another key or a namespace it does not name, and none leaves a row without its namespace |
| Metastore.CreateThenDelete | internal/metastore/sqlite/namespace.go:22-71 | Creating fails exactly on a taken name, and deleting undoes it |
| Metastore.DeleteThenCreate | internal/metastore/sqlite/namespace.go:50-71 | Deleting succeeds exactly on a namespace that no row of any table names, an unknown name is told apart, and creating undoes it |
| Metastore.FirstBlobCounts | internal/metastore/sqlite/sql.go:11-21 | A blob's row is active after every insert and keeps the size of the first, also when it comes back from pending deletion; an insert fails exactly when there is neither a row nor its namespace |
| Metastore.FirstInsertCounts | internal/metastore/sqlite/manifest.go:15-28 | A manifest is rejected exactly when its namespace is missing; of several inserts only the first counts, and none revives a row pending deletion |
| Metastore.DeletedOnce | internal/metastore/sqlite/manifest.go:58-74 | A manifest can be deleted exactly once; its size and media type stay, and no statement changes the row any more |
| Metastore.LatestUpsertCounts | internal/metastore/sqlite/referrer.go:14-47 | Of two upserts of a referrer the later counts, but for the creation time of the first |
| Metastore.DeleteReferrerUndoes | internal/metastore/sqlite/referrer.go:110-117 | Deleting never fails, changes nothing if there is no row, and takes back the upsert of a new one |
| Manifests.StoreEffect | internal/manifest/service.go:179-199 | A committed put inserts the manifest row unless one exists and upserts exactly the referrer row its body calls for |
| Manifests.RemoveEffect | internal/manifest/service.go:134-150 | A delete commits if and only if the manifest is active; its row stays, pending deletion, and its referrer row goes |
| Manifests.AcceptedBody | internal/manifest/utils.go:50-66 | A body is accepted if and only if it parses and the request or the body gives a media type; the request's comes first, and no other field changes |
| Manifests.ArtifactTypeComesFirst | internal/manifest/utils.go:38-48 | A non-empty artifact type is the row's, otherwise an image manifest's config media type, otherwise none |
| Manifests.SubjectHasRow | internal/manifest/utils.go:22-35 | Exactly the manifests with a non-empty subject have a referrer row, and each of its fields is the manifest's |
| Manifests.ManifestMatches | internal/manifest/service.go:43-60 | A body matches the digest computed for it, which is always a SHA-256 digest |
| ReferrerIndex.IndexFollowsScan | internal/manifest/service.go:43-158 | After every history of puts, deletes and other transactions, failed ones included, the manifest row and the referrer row of each digest are what a scan of the history gives |
| ReferrerIndex.ListedExactlyWhileLive | internal/metastore/sqlite/referrer.go:14-117 | A digest is listed for a subject if and only if its parsed body names the subject and no committed delete followed its latest committed put; and each field of its row by the fields of the parsed body: the request's content type or else the media type, the artifact type or else an image manifest's config type or else none, the size and the annotations |
| ReferrerIndex.IndexMatchesActiveExactly | internal/metastore/sqlite/sql.go:25-58 | Index and active manifests agree on a digest if and only if it was not put again after a delete |
| ReferrerIndex.ReputBreaksIndex | internal/metastore/sqlite/sql.go:25-48 | A concrete history, put, delete, put, after which the digest is listed but not active |
| ReferrerIndex.ReputIsListedForEver | internal/metastore/sqlite/sql.go:25-36 | A manifest put again after its deletion stays listed, and not active, through every continuation |
| ReferrerIndex.ManifestRowsPersist | internal/metastore/sqlite/sql.go:4-36 | No committed transaction deletes a manifest row, changes its size or media type, makes it active again or deletes its namespace |
| ReferrerFilter.FilterInPlace | internal/referrer/service.go:69-76 | Compacting the descriptors into their own backing array leaves exactly the filter of what the array held |
| ReferrerFilter.FilterPicks | internal/referrer/service.go:69-76 | The filter keeps exactly the positions of the artifact type, each once and in order |
| ReferrerFilter.ListReferrers | internal/referrer/service.go:28-81 | The answer holds one descriptor for each referrer row of the subject with the artifact type asked for, each of its fields the row's, oldest first; and which error is reported when |
| Uploads.ResumeSafety | internal/blobstore/fs/stream.go:44-107 | If every chunk is the slice of one content at the offset it is offered at, then through rejected offsets, short copies and retries the session holds a prefix of that content and reports its length |
| Uploads.ChunkedRefinesMonolithic | internal/blob/upload.go:33-147 | For every chunking, with or without a final chunk, a chunked upload leaves the same visible files, sessions and rows and reports the same as uploading the concatenation at once; it reports otherwise if and only if the digest matches and is already committed |
| Uploads.CommitsSession | internal/blob/upload.go:113-147 | What a commit leaves and reports for a new digest, a committed one and one that does not match |
| Uploads.AppendsAccumulate | internal/blob/upload.go:84-109 | Appends at the reported offsets accumulate the concatenation of the chunks |
| ServiceObjects.BlobService.MonolithicUpload | internal/blob/upload.go:33-81 | Blob store and metadata store, call by call with compensation, end as Services.MonolithicUpload says |
| ServiceObjects.BlobService.AppendFinalChunk | internal/blob/upload.go:284-308 | The offset is read first; without a chunk it is the total |
| ServiceObjects.BlobService.HandleFinalizeError | internal/blob/upload.go:242-264 | Only a wrong or malformed digest discards the session; how each error is reported |
| ServiceObjects.BlobService.CommitUpload | internal/blob/upload.go:113-147 | An already committed digest is an error and records no row |
| ServiceObjects.BlobService.CancelUpload | internal/blob/upload.go:169-190 | An unknown session is reported before anything is removed |
| ServiceObjects.BlobService.MountBlob | internal/blob/upload.go:195-240 | The source is only read; how each failure is reported |
| ServiceObjects.BlobService.MountBlobCopy | internal/blob/upload.go:310-352 | Compensation only for a blob this call stored |
| ServiceObjects.ManifestService.PutManifest | internal/manifest/service.go:43-99 | Blob first, rows second, no compensation: both stores end as Services.PutManifest says |
| ServiceObjects.ManifestService.DeleteManifest | internal/manifest/service.go:134-158 | Rows first, file second; a file that cannot be removed is not reported |
| ServiceOutcomes.ChecksInOrder | internal/blob/validate.go:15-55 | Which of a malformed name, a malformed digest, a failed lookup and an unknown name is reported, exactly |
| ServiceOutcomes.StatOutcome | internal/blob/service.go:28-41 | With usable arguments a stat answers with the row's size if and only if there is an active row, and otherwise that the blob is unknown |
| ServiceOutcomes.InitiateOutcome | internal/blob/upload.go:18-31 | A new, empty session under the id reported, and no row changes |
| ServiceOutcomes.AppendOutcome | internal/blob/upload.go:84-109 | An append succeeds if and only if the offset is the session's length and nothing fails, and then the session holds its old bytes and the chunk; ErrRangeNotSatisfiable if and only if an existing session has another length, and nothing changes |
| ServiceOutcomes.StatusOutcome | internal/blob/upload.go:150-167 | The offset reported is the session's length |
| ServiceOutcomes.CancelOutcome | internal/blob/upload.go:169-190 | A cancel succeeds if and only if the session is known and its removal works; then its name is gone; every other name stays; an unknown session is reported and any error leaves everything as it was |
| ServiceOutcomes.MonolithicOutcome | internal/blob/upload.go:33-81 | A success leaves file and active row, with the bytes as sent unless the digest was there before; which arguments are refused with which error |
| ServiceOutcomes.CommitOutcome | internal/blob/upload.go:113-147 | A success leaves under a digest that was not there what the session held and the final chunk added, with an active row |
| ServiceOutcomes.MountOutcome | internal/blob/upload.go:195-240 | A success leaves the source's bytes and an active row in the target namespace; ErrMountFailed if and only if the source namespace or its blob is missing |
| ServiceOutcomes.MountSucceeds | internal/blob/upload.go:195-240 | When nothing fails, a mount succeeds if and only if its source has a blob that is what its digest says |
| ServiceOutcomes.ReferenceOutcome | internal/manifest/validate.go:28-39 | Which references are digests, which are tags, and which error each other one gets |
| ServiceOutcomes.PutSucceeds | internal/manifest/service.go:43-99 | When nothing fails, a manifest put succeeds if and only if its name, reference, digest and body are accepted |
| ServiceOutcomes.PutOutcomeOk | internal/manifest/service.go:43-99 | A success reports the body's own digest, and file and row are there, the row active if it is new; a failure changes no row |
| ServiceOutcomes.PutRefusals | internal/manifest/service.go:43-99 | What is not accepted changes nothing, and which error it gets |
| ServiceOutcomes.DeleteOutcome | internal/manifest/service.go:134-158 | When the database works, a delete succeeds if and only if the manifest is active; then it is not, it is no referrer, and its file is gone if it could be removed |
| ServiceOutcomes.NamespaceOutcome | internal/namespace/service.go:28-83 | Creating succeeds if and only if the name is valid and free, deleting if and only if it is there and no row names it |
| JointInvariant.JointAgreement | internal/blob/upload.go:33-147 | After every interleaving of the store calls of any number of service calls, whatever fails and whatever namespaces are deleted and created again: rows reference existing namespaces, files hash to their digests, every active manifest row has a file of exactly its size, and so has every active blob row but those of digests some DeleteManifest named; provided each compensating delete that goes through finds no active row for its file and no call about to record it, and no namespace comes back while a call is about to record in it a file that is gone |
| JointInvariant.OrderlyAgreement | internal/blob/upload.go:33-147 | The same under a condition on events alone: the database does not fail in a transaction that would be compensated, and no namespace is created while a call that put or found a file in it has not recorded it or is about to delete it |
| JointInvariant.StepKeepsInv | internal/manifest/service.go:43-158 | Each store call keeps the agreement and what every call in progress relies on |
| JointInvariant.PutThenGet | internal/manifest/service.go:43-120 | In every history that never deletes it, a manifest reads back as first put: active, the exact body, the first media type and the body's size |
| JointStores.StepAgreesExactly | internal/blob/upload.go:68-69 | Of any step at all, in any agreeing state: the agreement is kept if and only if the step does not record a row whose file is missing or of another size, and does not remove the file of an active row |
| JointStores.AgreesThroughoutExactly | internal/blob/upload.go:33-147 | Over whole runs: the stores agree after every step if and only if no step is of that kind |
| JointStores.DeletesExactly | internal/blob/upload.go:68-81 | A compensating delete, or the file removal of DeleteManifest, keeps the agreement if and only if at that moment no active row needs the file |
| JointStores.RecreationBreaksAgreement | internal/blob/upload.go:68-81 | A concrete run without any store failure in which a namespace is deleted and created again during an upload, and the compensating delete takes the file of the new row |
| JointStores.CompensationBreaksAgreement | internal/blob/upload.go:310-352 | A concrete run for every kind of upload, mounts and commits included: the call stores its file, another upload finds and records it, the first call's transaction fails and its compensating delete takes the file of the other's row |
| JointStores.RowsStay | internal/metastore/sqlite/sql.go:25-36 | Through every run at all a manifest row keeps its size, media type and namespace, and never becomes active again |
| JointStores.ActiveStays | internal/metastore/sqlite/sql.go:25-36 | Through every run in which no DeleteManifest of it runs, an active manifest row stays as it is |
| ServiceRuns.MonolithicUploadRuns | internal/blob/upload.go:33-81 | Whatever its environment does, the call changes the two stores by a run of the joint model |
| ServiceRuns.MountBlobRuns | internal/blob/upload.go:195-240 | The same for a mount |
| ServiceRuns.CommitUploadRuns | internal/blob/upload.go:113-147 | The same for a commit of a session that shares no inode with a committed blob |
| ServiceRuns.PutManifestRuns | internal/manifest/service.go:43-99 | The same for a manifest put |
| ServiceRuns.DeleteManifestRuns | internal/manifest/service.go:134-158 | The same for a manifest delete |
| ServiceRuns.ChangeNamespaceRuns | internal/metastore/sqlite/namespace.go:22-71 | The same for creating and deleting a namespace |
| ServiceRuns.SessionsShow | internal/blob/upload.go:18-30 | Opening, extending and cancelling a session change no committed file and no row |
| ServiceRuns.MonolithicUploadAgreesExactly | internal/blob/upload.go:59-81 | Run alone, the call breaks the agreement if and only if the blob was already there with an active row, its transaction is rolled back and the compensating delete works |
| ServiceRuns.MountBlobAgrees | internal/blob/upload.go:327-352 | Run alone, mountBlobCopy never breaks the agreement |
| ServiceRuns.DeleteManifestAgreesExactly | internal/manifest/service.go:134-158 | Run alone, the call breaks the agreement if and only if it commits on a digest with an active blob row in the namespace and the file goes |
| ServiceRuns.MonolithicUploadBreaks | internal/blob/upload.go:59-81 | A concrete world: uploading a blob again while the database fails leaves its active row without a file |
| ServiceRuns.DeleteManifestBreaks | internal/manifest/service.go:134-158 | A concrete world: deleting a manifest whose digest is a blob too leaves the blob's active row without a file |
| ServiceRuns.StatImpliesRead | internal/blob/service.go:28-64 | Under the agreement a blob whose stat succeeds reads back in full, with the advertised size and digest |
| ServiceRuns.ActiveBlobReads | internal/blob/service.go:28-64 | Under the agreement and with reads that work, a stat and a get succeed if and only if the blob has an active row, with the row's size and all its bytes; any other is unknown |
| ServiceRuns.ActiveManifestReads | internal/manifest/service.go:101-120 | Under the agreement a manifest is served if and only if its row is active, with its row and all its bytes |
| Isolation.NamespacesAreIsolated | internal/blobstore/fs/utils.go:13-19 | In every history, failures included, the files, sessions and rows of a namespace are those left by the calls naming it alone, a mount into it being kept as an upload of the bytes it read |
| Isolation.CallIsolated | internal/blob/upload.go:18-190 | Each call changes its own namespace's share as it would alone, and no other namespace's share |
| Isolation.MountIsCopy | internal/blob/upload.go:195-240 | A mount is an upload of the bytes found at its source |
| Isolation.ExecShares | internal/metastore/sqlite/sql.go:4-58 | Each statement reads and writes rows of one namespace only, foreign keys included |
| Paths.PathsInjective | internal/blobstore/fs/utils.go:13-19 | On valid names, valid digests and issued upload ids, below any prefix, blob and staging paths are jointly injective |
| Paths.CleaningIsIdentity | internal/blobstore/fs/utils.go:13-19 | Below a clean prefix, the root, the current directory or no prefix, filepath.Join changes nothing: the paths are prefix/ns/alg/hex and prefix/ns/.staging/id |
| Paths.AncestorExactly | internal/blobstore/fs/utils.go:13-19 | One file's path is a directory above another's if and only if the first is a blob of some ns and the other's namespace is ns/alg/hex of that blob or extends it |
| Paths.BlobTextIsValidName | internal/namespace/validate.go:11-20 | That name satisfies the repository name grammar, so the collision is possible |
| Paths.VacuumAndNames | internal/blobstore/fs/vacuum.go:131-222 | The staging vacuum never removes a committed blob, and removes an upload session if and only if it is old enough and the removal does not fail |
| NameGrammar.ValidNameIsPattern | internal/namespace/validate.go:11-20 | A one-pass recogniser accepts exactly the language of the compiled regular expression, given as a denotation over its syntax tree |
| Directories.EscapesExactly | internal/blobstore/fs/vacuum.go:227-234 | A path is refused if and only if the text of filepath.Rel is a dot or begins with two dots |
| StagingVacuum.VacuumStagingBlobs | internal/blobstore/fs/vacuum.go:131-178 | Over any directory tree: exactly the doomed files go and nothing else changes, each outermost .staging directory is visited exactly once, every stale file that stays is reported and no other file is, and a batch is reported as refused if and only if it was refused in a visited directory that holds a stale file |
| StagingVacuum.Walk | internal/blobstore/fs/vacuum.go:141-170 | The outer walk, with SkipDir, one subtree at a time |
| StagingVacuum.FindStaleStagingEntries | internal/blobstore/fs/vacuum.go:180-222 | The inner walk lists exactly the readable files at or below its directory whose age has reached the grace period |
| StagingVacuum.SweepStagingDir | internal/blobstore/fs/vacuum.go:153-167 | One staging directory: what goes and what is reported, when its batch is refused and when it is carried out |
| StagingVacuum.StaleIsOldEnough | internal/blobstore/fs/vacuum.go:213-215 | Saturation of time.Time.Sub never changes the verdict |
| Directories.Disk.RemoveCommandPaths | internal/blobstore/fs/vacuum.go:224-243 | Which files go, how many are counted with duplicates and absent ones, and the error at each path's own position |
| Directories.Disk.RemoveBatch | internal/blobstore/fs/vacuum.go:90-129 | removeBatch as its caller sees it: refused, nothing to do, or carried out |
| BatchDelete.BatchDeleteBlobs | internal/blobstore/fs/deleter.go:54-90 | For any list with duplicates, malformed and absent entries: nothing else goes, every valid digest is absent afterwards or reported, the count is of distinct digests that went, path errors are those of the failed positions, and ErrPartialDeletion is reported if and only if something went and something failed |
| BatchDelete.RemovedDigests | internal/blobstore/fs/deleter.go:73-90 | The number of removed files is the number of distinct valid digests present before and absent after |
| Urls.SplitNamespacedPath | rest/middleware.go:10-41 | Name and tail join to the rest of the path, a separator starts at the cut and none starts later; without prefix, separator or name the split fails |
| Urls.SplitInvertsJoinExactly | rest/middleware.go:10-41 | Splitting name + tail gives both back if and only if the name is not empty, the tail starts with a separator and contains no later one |
| Urls.RoutesSplit | rest/routes.go:24-44 | For every valid name, even one with components called blobs or manifests, and every route whose last parameter holds no slash, splitting inverts joining |
| Ranges.ServeBlob | rest/blob.go:36-132 | The status for every header and size, by the digits the header holds; an accepted range is sent with its exact length, and when the file has the row's size the bytes are content[first..last] |
| Ranges.RangeExactly | rest/range.go:15-29 | A Range header parses to a pair if and only if it is bytes=, digits, a dash and digits whose values, capped at the largest int64, are that pair in order |
| Ranges.ContentRangeExactly | rest/range.go:32-46 | The same for a Content-Range header, without the unit |
| Ranges.RangeReadsBack | rest/range.go:15-46 | The decimal text of any two int64 numbers in order parses back to them, in both headers |
| Ranges.GetBlobRange | internal/blobstore/fs/reader.go:45-97 | Which error is reported when, and that the bytes written are the range or, after a failure, a prefix of it |
| Ranges.OpenFile.CopyN | internal/blobstore/fs/reader.go:84-94 | Reads of any sizes deliver the bytes from the cursor on, up to n or the end of the file |
| Ranges.AcceptedIsUnsaturated | rest/range.go:15-29 | A range accepted against a 64-bit size is the one the digits write: neither bound was saturated and last-first+1 does not overflow |
| Ranges.ParseAgreesExactly | rest/range.go:15-46 | Both header parsers agree with unbounded arithmetic except, exactly, on ranges that run backwards with both bounds at or beyond the largest int64 |
| Ranges.BackwardsIsAccepted | rest/range.go:15-29 | Such ranges: from n+1 nines back to n nines, for every n from 20 on, parse as one position |
| Ranges.SubmatchesExactly | rest/range.go:9-12 | The two submatches are the only reading of the text as digits, a dash and digits |

## Left out

- HTTP handlers, headers, logging, JSON encoding, error-to-status tables, configuration, health and start-up: plumbing or single-branch tables.
- SQLite itself, its WAL, connection pools and timestamps other than a referrer's creation time; foreign keys are taken as enforced on every connection.
- SHA-2 and UUIDs: any streaming hash, and fresh ids supplied by the environment.
- JSON parsing of manifests: any deterministic function from body to the fields the registry reads.
- The pipe and the goroutine of the service's GetBlobRange: the bytes delivered are modelled.
- fsync and crashes in the middle of a write: the code has no recovery procedure.
- The unused manifest_tags table, tag references (rejected as unsupported), HeadManifest and the test doubles.
- Upload ids a client makes up: appends, finalizes and cancels name ids that were issued.
- Unsupported and malformed digests are one error, DigestInvalid.
- In FilesystemBlobStore one flag says whether the removals of the staging file within one call succeed, although the code may try twice.
- Inode numbers carry the namespace whose call allocated them, so that one namespace's allocations can be told from another's; reuse of a freed number is left out.
- I/O errors while a directory is listed, cancellation in the middle of a walk and symbolic links are not part of StagingVacuum; failed stats, failed removals and refused batches are.
- Removal of an empty directory by RemoveCommandPaths: its paths are required not to be directories, which is the same exclusion as the namespace named ns/alg/hex.
- The order of directory entries within one walk is left open; nothing depends on it.
- JointInvariant.JointAgreement: excludes compensating deletes that another call relies on, and a namespace coming back while a file about to be recorded in it is gone; JointStores.StepAgreesExactly and JointStores.AgreesThroughoutExactly say exactly what goes wrong there.  Its blob half leaves out digests that some DeleteManifest named.
- ServiceRuns.CommitUploadRuns: assumes the session shares no inode with a committed blob; AppendRaces says when that holds.

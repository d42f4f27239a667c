# The tana object store, modelled and proved

tana keeps objects as content-addressed blobs, an append-only journal of mutations, and an
index derived from that journal. A write becomes durable in one order: the blob, then the
journal record, then the index, and only then is the client told. This project models that
design as a state machine with crashes and proves what it promises over every run; it then
proves the algorithms around it: the segmented journal down to its bytes, the index's
counters, the collector, recovery and rebuild, a secondary that pulls the journal, the S3 front
end's paging, chunk decoding, canonicalisation and ranges, and the agent that treats a site's
disk as a cache of the store.

`dafny verify dfyconfig.toml` checks everything.

## How it is laid out

Code that changes things in place is a class or a method with loops, and its contract ties the
new state to a function of the old one; what the design promises is then proved about those
functions.

- `Blob`, `Index`, `Journal`, `ObjectStore`: the classes `Store`, `DB`, `Journal` and
  `ObjectStore.Store`, the code of internal/blob, internal/index, internal/journal and
  internal/store.
- `Apply`, `Disk`, `Multipart`, `Grace`: what a record does to the index, what is on the disk
  between any two steps, and what every step keeps of it.
- `Machine`: clients, collector, crash, recovery and rebuild as one state machine, and the
  results about all its reachable states; `Counters` carries the namespaces' counters over them and
  `Waiting` the grace period. `Refinement` shows that the code's calls are runs of it; `Overlap`
  settles what replaying too much does; `Fsck` what the consistency check says.
- `Replica`: primary and secondary together.
- `Listing`, `Chunked`, `Signatures`, `Canonical`, `Ranges`: the front end and the client.
- `Agent`, `Eviction`: one site of the agent.
- `ByteStrings`, `Numbers`, `Sets`, `Wrappers`: byte strings in bytewise order, numbers as text
  and the like.

The hashes SHA-256 and MD5 are constructors of a datatype: equal digests have equal contents,
and nothing else is known of them. A record's JSON line is any newline-free encoding with a
left inverse.

## Where the code falls short of its comments

Eight statements in the source claim more than the code gives. Each is kept as the code has it,
shown to fail on an input the code can receive, and replaced by the exact condition under which
it holds.

- internal/store/store.go:181-184 calls `apply` idempotent. The bindings are
  (`Overlap.OverlapKeepsBindings`), but a count can be lost (`Overlap.OverlapCanLoseACount`);
  `Overlap.OverlapKeepsCountsExactly` says exactly when none is.
- internal/store/store.go:151-179 recovers a consistent index. With an upload open it can drop a
  part's reference, because part references are not in the journal: `Refinement.RecoveryCanDropAPart`
  is a run after which it would, and `Overlap.RecoveryWithOpenUploads` gives the exact condition.
- internal/store/fsck.go:51-54 calls a rebuild safe because the index holds nothing that the journal
  does not. It holds the references and the release times of upload parts: with uploads open the
  bindings come out right and each count is short by exactly the part slots
  (`Fsck.RebuildWithOpenUploads`).
- internal/store/gc.go:30-37 has everything wait out the grace period. For keys this is true without
  exception, of expired blobs (`Waiting.CollectionWaitsOutGrace`) and of orphans
  (`Waiting.OrphansWaitOutGrace`). For the parts of uploads it fails in two ways: right after a
  rebuild, which cannot know when a part let go (`Refinement.RebuildForgetsParts`), and right after a
  recovery that replays a collection, without any rebuild (`Refinement.RecoveryForgetsParts`).
  A blob is collected too early for its parts if and only if it is not `PartSafe`
  (the two lemmas above, and `Waiting.UnsafeIsTaken`). Nothing but recovery and rebuild ends that
  (`Waiting.StepKeepsSafe`): recovery if and only if it replays a collection of the blob with no key
  bound to it afterwards, and the file is older than the release (`Waiting.RecoveryKeepsSafe`);
  rebuild if and only if the time at which the journal last unbound the blob, or the file's if it
  says nothing of it, is older than the release (`Waiting.RebuildKeepsSafe`).
- internal/journal/journal.go:337-343 repairs a torn tail. When the torn record was the first of a
  second or later segment, the number restarts from 1 (`Journal.TornTailCanRestart`);
  `Journal.TornTailRecovery` shows that this is the only such case.
- internal/s3/chunked.go:16-19 says that truncating the stream breaks the chain. Of all the places
  where a stream may be cut, signed or not, exactly these pass for an ordinary end
  (`Chunked.TruncationIsSilent`): where a chunk begins; right after a chunk's data, when the chunk is
  not served though it is there; one byte after that, when it is served; and anywhere in the closing
  chunk from where its header parses, which is before the signature that follows is complete. A cut
  anywhere else is a failure, and in every case what is served is a prefix of the chunks.
- internal/agent/agent.go:115-117 has the scan at startup find whatever changed in the meantime. It
  finds what changed in size or time; `Agent.DownEditIsFound` says exactly when the entry is right
  afterwards, and `Agent.DownEditCanBeLost` what becomes of other changes to a synced file.
- internal/s3/server.go:283-345 with max-keys 0 reports a truncated page without a token
  (`Listing.ZeroMaxKeysStalls`); with max-keys of at least 1 paging is exact.

An eviction cut short between the file and the index is read as a removal by the next scan
whenever the deletion gets through (`Agent.HalfEvictionIsARemoval`), the watcher's echo of a recall
costs an upload and a pin (`Agent.EchoOnlyDirties`), and GetRange asks for nothing sensible when the
last position overflows 64 bits (`Ranges.RangeRoundTrip`).

## What the model assumes

- One client mutation at a time, with a crash allowed between any two of its steps. Whole client
  operations may come between the collector's walk and each re-check; from re-check to journal
  record no client intervenes, and collectOrphans is one step.
- An index transaction is atomic and durable; a blob is present whole or absent; a journal write
  that fails is a crash. A torn write leaves a prefix of the record's line.
- Each multipart call is one step. A crash may find uploads open, unless a collection not yet
  applied concerns a blob that one of their parts holds, where recovery goes wrong as said above. A
  rebuild is one step and finds no upload open; one that is cut short has to be run again.
- A read of an object, index entry and bytes together, is one step; it may come at any moment the
  store is up, between the steps of a mutation or of a collection too.
- The clock does not run backwards.
- The newest journal segment holds a complete record when the journal is reopened, or is the only
  segment; without it the numbering restarts, as said above.
- A secondary pulls, crashes, recovers and removes orphans; it collects nothing of its own. A record
  is durable on the primary before it is served: the code serves journal pages without a lock
  (internal/store/replica.go:88-96) while a record written is not yet synced
  (internal/journal/journal.go:150-155), so a power cut could take back a record already shipped and
  have its number used again. The replication results do not cover such a cut.
- A file changed while the agent is down, or before it is first indexed, differs from its entry, if
  there is one, in size or time.
- A file changed under the agent is indexed before the next step, its uploads, evictions and recalls
  are whole steps apart from a lost last index update, and nobody else writes the site's objects on
  the store. The watcher may report any file at any time, changed or not, such as one a recall has
  just renamed into place; its events on a recall's temporary file are not modelled.

## Model

| member | source | states |
|---|---|---|
| Machine.BoundBlobsAreOnDisk | internal/store/store.go:278-334 | In every reachable state, crash or not, each key bound by the fold of the durable journal has its blob on disk under its right name. |
| Machine.ReadsAreExplained | internal/store/store.go:9-18 | At every moment the store is up, in the midst of a mutation or a collection too, a key reads back exactly what the last request on it among those shown asked for, or nothing if there is none, and the index gives that request's hash, tag, size and modification time; every acknowledged request is shown, and every one shown had durably taken effect, so neither a refused put nor one a crash cut off before its record is ever read. |
| Machine.AcknowledgedIsNeverLost | internal/store/store.go:9-18 | At every moment the store is up, after any run with crashes and recoveries, an acknowledged request is what its key reads back, bytes, tag, size and time, unless a later one on the key has taken effect; requests refused, or never made durable, change nothing. |
| Machine.EntriesAreExplained | internal/store/store.go:337-370 | The entry a reader is given for a served key has the size of the last shown put's content, the tag it asked for or the content's MD5, its modification time, and the later of the committed and the pending access time. |
| Counters.CountersMatchTheWalk | internal/index/index.go:440-476 | In every reachable state, and after recovery and rebuild, each namespace's six counters equal a full walk, and a bucket's count of objects is its number of keys. |
| Counters.StepKeepsTidy | internal/index/index.go:440-476 | Every step keeps the counters exact, and every object of the store under a hash. |
| Counters.RecoverKeepsTidy | internal/store/store.go:154-179 | So does recovery. |
| Counters.RebuildKeepsTidy | internal/store/fsck.go:147-189 | So does a rebuild, which counts each object once. |
| Counters.WipedIsTidy | internal/store/fsck.go:147-170 | Once the store's namespaces are dropped their counters are zero, and the agent's still match. |
| Machine.CountsAreConserved | internal/store/store.go:206-244 | At every moment each blob's count equals the keys bound to it over all buckets plus the part slots holding it, is never negative, and its grace clock is set exactly when the count is zero. |
| Machine.ReplayRefinesLivePath | internal/store/store.go:154-203 | In any reachable state without open uploads, recovery and rebuild both reach the bindings and counts of the fold of the whole journal, and so does the live index when the store is up. |
| Waiting.CollectionWaitsOutGrace | internal/store/gc.go:64-118 | The re-check drops a blob only if at no moment of the grace period before the pass, nor since, a key was bound to it, and no part holds it; a whole period has passed since a part last let go of it if and only if the blob was safe. |
| Waiting.OrphansWaitOutGrace | internal/store/gc.go:120-169 | The same of every blob without a reference record that a pass removes as an orphan. |
| Waiting.UnsafeIsTaken | internal/store/gc.go:38-60 | A blob that is not safe can be taken, by one pass after a wait, before a grace period has passed since a part let go of it. |
| Waiting.StepKeepsSafe | internal/store/gc.go:38-60 | No step but recovery and rebuild makes a safe blob unsafe. |
| Waiting.RecoveryKeepsSafe | internal/store/store.go:154-179 | Recovery keeps a blob safe if and only if it replays no collection of it, or binds a key to it afterwards, or its file is no older than the last release by a part, or that release is a grace period past. |
| Waiting.RebuildKeepsSafe | internal/store/fsck.go:147-189 | After a rebuild a blob is safe if and only if a part last let go of it no later than the journal last unbound it, or the journal still binds it, or, where the journal says nothing of it, no later than its file landed, or else a grace period ago. |
| Waiting.PartsStaySafe | internal/store/gc.go:38-60 | Along any run whose recoveries and rebuilds meet these conditions a blob stays safe. |
| Waiting.SparedPartsWait | internal/store/gc.go:38-60 | So after such a run from an empty store neither half of the collector takes it before a grace period has passed since its last part let go. |
| Machine.StepKeepsInv | internal/store/store.go:278-334 | Every step, of a put, delete, collection, upload, crash, recovery or rebuild, keeps the invariant behind the results above. |
| Machine.IssueExplained | internal/store/store.go:278-334 | A new request leaves every key's value that of the last request to have taken effect. |
| Machine.WriteExplained | internal/store/store.go:306-316 | Once its record is durable, its key has the value the request in progress asks for, and every other key that of its last request to take effect. |
| Machine.AckExplained | internal/store/store.go:378-382 | A request that finds its key as it would leave it takes effect at once. |
| Machine.CompleteIsFive | internal/store/multipart.go:141-190 | Completing an upload is a whole acknowledged put followed by an abort of the upload, step for step. |
| Machine.CompleteKeepsInv | internal/store/multipart.go:141-190 | And so it keeps the invariant. |
| Machine.ReadsFollowSource | internal/store/store.go:354-370 | At any such moment a key reads back what the last request on it that the index shows asked for. |
| Machine.UpIsServing | internal/store/store.go:354-370 | Whenever the store is up, what the index says is what requests asked for and is on disk, also while it is a record behind the journal. |
| Refinement.PutIsARun | internal/store/store.go:278-334 | The code's put is four steps of the machine, from issue to acknowledgement. |
| Refinement.DeleteIsARun | internal/store/store.go:374-399 | The code's delete of a present key is three. |
| Refinement.CollectOneIsARun | internal/store/gc.go:79-116 | Collecting one candidate is the re-check, the removal and the journal record. |
| Refinement.CollectIsARun | internal/store/gc.go:64-118 | A pass over its candidates, with nothing in between, is a run of the machine. |
| Refinement.RecoveryCanDropAPart | internal/store/store.go:154-179 | A run from an empty store, put, delete, collection and upload of the same content, after which every count is right and recovery would forget a part's reference. |
| Refinement.RebuildForgetsParts | internal/store/fsck.go:147-189 | A run from an empty store in which a part holds a blob until the moment at which, after a rebuild, the collector drops it. |
| Refinement.RecoveryForgetsParts | internal/store/store.go:154-179 | A run from an empty store, without a rebuild, in which a part holds a blob until the moment at which, after a recovery, the collector removes it as an orphan. |
| Apply.ApplyMovesView | internal/store/store.go:185-203 | A record moves the index's bindings exactly as it moves the fold of the journal, whatever the index held. |
| Apply.ApplyMovesDrift | internal/store/store.go:206-244 | Put and delete records keep each blob's count in step with its holders; a collection record sets it to none. |
| Apply.ApplyKeepsConserved | internal/store/store.go:206-244 | A mutation's record keeps every count equal to its holders; so does a collection record of a blob nothing holds. |
| Apply.ApplyKeepsClocks | internal/index/tx.go:136-162 | A record keeps grace clocks set exactly where counts are not positive. |
| Apply.ApplyKeepsExact | internal/store/store.go:185-203 | A record keeps the namespaces' counters exact. |
| Apply.ReplayReachesFold | internal/store/store.go:154-179 | Replaying a stretch of the journal over an index that stands for what precedes it gives the fold up to its end. |
| Apply.ReplayConserves | internal/store/store.go:154-179 | And keeps every count equal to its holders, given that each collection record sits where nothing is bound to its blob and no open upload's part holds it. |
| Apply.CountsFollowBindings | internal/store/store.go:206-244 | Two conserved indexes with the same bindings and no uploads have the same counts, the numbers of bound keys. |
| Apply.WellPlacedAppend | internal/store/gc.go:109-109 | Collection records stay where nothing is bound to their blob as the journal grows. |
| Disk.LandIsSane | internal/store/store.go:290-299 | A blob that has landed, recorded or not, leaves the disk sane. |
| Disk.LogIsSane | internal/store/store.go:306-316 | So does a record whose blob is on disk, and the fold moves by that record. |
| Disk.CommitIsSane | internal/store/store.go:318-326 | Committing the newest record at any later time brings the index up to date. |
| Disk.RecoverIsSane | internal/store/store.go:154-179 | Recovery from any crash brings the index to the fold of the journal with every count right, uploads open or not, provided no unapplied collection concerns a part of theirs. |
| Disk.RebuildIsSane | internal/store/fsck.go:147-189 | So does a rebuild, which no binding or count of the old index survives; its counters are Counters.RebuildKeepsTidy. |
| Disk.RecoverAndRebuildAgree | internal/store/fsck.go:147-189 | Recovering the current index and rebuilding from empty agree on bindings and counts. |
| Disk.RemoveIsSane | internal/store/gc.go:126-169 | Removing blobs that nothing holds keeps every bound blob on disk. |
| Disk.UncountedIsUnheld | internal/store/gc.go:79-116 | A blob whose count is not positive has no holder of any kind. |
| Disk.DropIsSane | internal/index/tx.go:182-188 | Dropping the record of an uncounted blob keeps everything. |
| Grace.CoversReplay | internal/store/store.go:154-179 | Replay stamps unreferenced blobs with times no earlier than their last binding's end. |
| Grace.StampedLongAgo | internal/index/tx.go:29-31 | A stamp older than a moment means that no key was bound to the blob at any moment since. |
| Grace.UnrecordedLongAgo | internal/store/gc.go:120-126 | And a missing record means that none was for a grace period before the time the collector goes by. |
| Grace.OutlivedReplay | internal/store/store.go:154-179 | Replay keeps that meaning of a missing record, since each collection logged has waited. |
| Grace.ReplayShows | internal/store/fsck.go:147-189 | Replaying a journal from nothing gives each blob no record if it was never bound or last collected, a running count while a key is bound, and otherwise a stamp of exactly the time of the record that last unbound it. |
| Grace.ApplyStamps | internal/index/tx.go:136-162 | A record leaves a clock as it was or sets it to the record's time. |
| Grace.StampedIsUnbound | internal/index/tx.go:136-162 | A blob whose clock is set has no key bound to it. |
| Multipart.PartStoredConserves | internal/store/multipart.go:98-132 | Storing or replacing a part keeps every count equal to its holders. |
| Multipart.DiscardConserves | internal/store/multipart.go:246-264 | So does discarding an upload with all its parts. |
| Multipart.PartStoredIsSane | internal/store/multipart.go:98-132 | Storing a part keeps the disk sane and starts no clock but at the present moment. |
| Multipart.DiscardIsSane | internal/store/multipart.go:246-264 | And so does discarding. |
| Multipart.BegunIsSane | internal/store/multipart.go:68-91 | And opening an upload. |
| Overlap.OverlapKeepsBindings | internal/store/store.go:181-203 | Re-applying any suffix of the journal to the index that stands for all of it changes no binding. |
| Overlap.OverlapKeepsCountsExactly | internal/store/store.go:181-244 | It changes no count if and only if every key finally bound to a blob is revisited before the blob's last collection in the suffix. |
| Overlap.OverlapKeepsCounts | internal/store/store.go:181-244 | In particular when no collection in the suffix is followed by a put of its blob. |
| Overlap.OverlapCanLoseACount | internal/store/store.go:181-184 | A journal and a suffix for which a key keeps its blob and the blob loses its count. |
| Overlap.RecoveryWithOpenUploads | internal/store/store.go:154-179 | With uploads open, recovery keeps all counts if and only if no unapplied collection concerns a blob that a part holds; the bindings are right in any case. |
| Fsck.VerdictIsExact | internal/store/fsck.go:55-124 | After any set of blobs is removed by hand from an idle store, the report names exactly the bound keys whose blob is in it, counts exactly the held blobs in it as stale, all keys as objects, and as unreferenced exactly the blobs left to which no key is bound; it is clean exactly if no blob in the set was held. |
| Fsck.RebuiltVerdictIsExact | internal/store/fsck.go:55-124 | The same of a rebuild first, from any reachable state and with uploads open or not: the lost blobs still bound are stale, and the journal's records are counted. |
| Fsck.DamageIsReported | internal/store/fsck.go:55-124 | Every field of the report on any sane, caught-up store from which blobs were removed. |
| Fsck.ReachableIsHealthy | internal/store/fsck.go:55-124 | On any reachable store that is idle the report is clean, and after a rebuild from any reachable state, uploads open or not, it is clean too. |
| Fsck.RebuildWithOpenUploads | internal/store/fsck.go:147-189 | A rebuild reaches the fold of the journal in any case, leaves each count short by the part slots holding the blob, and so all counts right if and only if no open upload has a part. |
| Fsck.AgentIsLeftAlone | internal/store/fsck.go:132-170 | Agent namespaces are neither reported nor changed by a rebuild, entries and counters alike. |
| ObjectStore.MutationReadsBack | internal/store/store.go:278-334 | After one uninterrupted mutation its key reads as asked, and every other key reads as before and keeps its entry. |
| ObjectStore.PutReadsBack | internal/store/store.go:278-370 | After a put its key reads back the content with the entry the put asked for, and every other key reads as before and keeps its entry. |
| ObjectStore.PutLeavesEntry | internal/store/store.go:206-231 | The entry a put leaves: the content's hash and size, the tag given or the content's MD5, the times given, and the former mode and pin only where the content is the same. |
| ObjectStore.CompletionReadsBack | internal/store/multipart.go:134-190 | After a completion the key reads back the joined content under the tag of its parts, the upload is gone, and every other key and upload is as before. |
| ObjectStore.ReclaimedIsTheDifference | internal/store/gc.go:112-166 | The bytes reported as reclaimed are those by which the blobs have shrunk. |
| ObjectStore.Store.PutWith | internal/store/store.go:278-334 | Each refusal and what it leaves behind; otherwise the disk after blob, journal and index, and the entry returned. |
| ObjectStore.Store.Delete | internal/store/store.go:374-399 | A present key is logged and unbound; an absent one succeeds and leaves no trace. |
| ObjectStore.Store.Get | internal/store/store.go:354-370 | Succeeds exactly when the key reads back, with those bytes and the index's own entry, pending access time included, and notes the access only then; otherwise it says which of bucket, key and blob is missing. |
| ObjectStore.Store.Head | internal/store/store.go:337-351 | The index's own entry, pending access time included, or which of bucket and key is missing. |
| ObjectStore.Store.Bind | internal/store/store.go:206-231 | The index with the key bound and the counts moved, including a rebinding to the same blob. |
| ObjectStore.Store.Unbind | internal/store/store.go:234-244 | The index with the key gone and its reference released. |
| ObjectStore.Store.ApplyRecord | internal/store/store.go:185-203 | One record folded into the index at the record's own time. |
| ObjectStore.Store.Recover | internal/store/store.go:154-179 | The disk becomes the recovered one, and the count is the number of unapplied records. |
| ObjectStore.Store.ApplyEach | internal/store/store.go:154-179 | Replaying records one by one gives what the fold of their effects gives. |
| ObjectStore.Store.CollectExpired | internal/store/gc.go:64-118 | Every candidate the walk finds is dropped, removed and journalled, once each, and the bytes they held are counted. |
| ObjectStore.Store.CollectEach | internal/store/gc.go:79-116 | For any list of candidates, however much has changed since the walk: those still collectable are dropped, removed and journalled in order, and no others. |
| ObjectStore.StillDueExactly | internal/store/gc.go:85-104 | Those taken are exactly the candidates still collectable, each once. |
| ObjectStore.AllStillDue | internal/store/gc.go:85-104 | They are all of them if nothing has changed since the walk. |
| ObjectStore.Store.CollectOne | internal/store/gc.go:79-116 | A candidate is taken exactly if it is still collectable at its re-check. |
| ObjectStore.Store.WalkRefs | internal/index/tx.go:256-270 | The walk finds each collectable blob once. |
| ObjectStore.Store.CollectOrphans | internal/store/gc.go:126-169 | Exactly the old blobs without a reference record go; they, their bytes and the files with foreign names are counted. |
| ObjectStore.Store.FindOrphans | internal/store/gc.go:137-154 | The walk lists each old blob without a reference record once. |
| ObjectStore.Store.RemoveAll | internal/store/gc.go:156-162 | The victims go, and their number and bytes are counted. |
| ObjectStore.Store.GC | internal/store/gc.go:38-60 | Both halves of a pass, the second over what the first left, with the statistics of both. |
| ObjectStore.Store.RebuildIndex | internal/store/fsck.go:147-189 | The index becomes what replaying the whole journal over nothing gives, and its counters are exact if they were. |
| ObjectStore.Store.DropStoreNamespaces | internal/store/fsck.go:132-170 | The store's objects and counters go, and the agent's stay, entry by entry. |
| ObjectStore.Store.Fsck | internal/store/fsck.go:55-124 | The report is the verdict on the disk, rebuilt first if asked, the records replayed counted. |
| ObjectStore.Store.CheckObjects | internal/store/fsck.go:71-93 | The walk over the objects finds exactly the missing and the referenced blobs. |
| ObjectStore.Store.CheckEach | internal/store/fsck.go:76-92 | The walk's loop over any set of objects, in whatever order. |
| ObjectStore.Store.StoreNamespaces | internal/store/fsck.go:132-144 | Every namespace of the store's own scope, and none of the agent's. |
| ObjectStore.Store.CheckRefs | internal/store/fsck.go:95-109 | The walk over the references counts exactly the stale ones. |
| ObjectStore.Store.CreateUpload | internal/store/multipart.go:68-91 | An upload is opened, or refused with nothing changed. |
| ObjectStore.Store.UploadPart | internal/store/multipart.go:98-132 | The part is stored and counted and the one it replaces released, or the call is refused with nothing changed. |
| ObjectStore.Store.DiscardUpload | internal/store/multipart.go:246-255 | Every part is released and the upload forgotten. |
| ObjectStore.Store.ReleaseParts | internal/store/multipart.go:246-264 | The order in which parts are released does not matter. |
| ObjectStore.Store.AbortUpload | internal/store/multipart.go:199-209 | Discards a known upload; refuses otherwise. |
| ObjectStore.Store.Assemble | internal/store/multipart.go:155-177 | The loop yields the listed parts' contents, each where those before it end, and their tags, or the fault of the first that cannot be used. |
| Multipart.AssembledExactly | internal/store/multipart.go:141-180 | Assembly succeeds exactly if every listed part is in the upload with its tag and its blob on disk; the length is then the sum of theirs, each part's bytes start where those before it end, and the tags are theirs; otherwise the fault names the first part for which that fails, and how. |
| ObjectStore.Store.CompleteUpload | internal/store/multipart.go:141-190 | Succeeds exactly if every listed part can be used, and then stores their contents joined in number order; refused otherwise with nothing changed, and with the first part that is not as listed or whose blob is lost. |
| ObjectStore.SortWants | internal/store/multipart.go:141-190 | The listing in number order, no part lost. |
| Index.CountersAreExact | internal/index/index.go:440-476 | After any sequence of put, delete, state change, drop, touch and flush, each namespace's six counters equal a full walk. |
| Index.RecountKeepsTally | internal/index/index.go:440-476 | The incremental change for one entry is the change in the full walk. |
| Index.PutKeepsExact | internal/index/tx.go:53-76 | A put keeps the counters exact. |
| Index.DeleteKeepsExact | internal/index/tx.go:95-108 | So does a delete. |
| Index.DropNamespaceKeepsExact | internal/index/index.go:356-372 | So does dropping a namespace. |
| Index.FlushKeepsExact | internal/index/index.go:393-434 | So does a flush of access times. |
| Index.FlushIsInvisible | internal/index/index.go:393-434 | A flush changes no answer of Get and leaves nothing pending that matters. |
| Index.Moved | internal/index/tx.go:136-162 | A reference's clock is set exactly when its count is not positive. |
| Index.Overlaid | internal/index/index.go:214-238 | A reader sees the later of the committed and the pending access time, and all else unchanged. |
| Index.DB.Get | internal/index/index.go:214-238 | The committed entry with the pending access time laid over it. |
| Index.DB.Put | internal/index/tx.go:53-76 | The entry is replaced and the counters stay exact. |
| Index.DB.DeleteTx | internal/index/tx.go:95-108 | The entry goes, its former value is returned, and the counters stay exact. |
| Index.DB.Delete | internal/index/index.go:243-252 | The entry and its pending access time go. |
| Index.DB.SetState | internal/index/tx.go:111-130 | Only the state changes; an unknown key is reported. |
| Index.DB.ApplyStats | internal/index/index.go:440-462 | The counters move by the transition of one entry. |
| Index.DB.Touch | internal/index/index.go:268-279 | A pending access time only moves forward, to the moment given, and no other changes. |
| Index.DB.FlushATimes | internal/index/index.go:393-434 | Pending times are written through, with every answer of Get unchanged. |
| Index.DB.WriteATimes | internal/index/index.go:393-434 | The loop writes a later time and skips keys that are gone. |
| Index.DB.DropNamespace | internal/index/index.go:356-372 | Entries, counters and pending times of one namespace go. |
| Index.DB.Adjust | internal/index/tx.go:136-162 | Moves a count, with its clock, and returns it. |
| Journal.RunsRefineOneSequence | internal/journal/journal.go:132-291 | Through any run of appends, rotations, crashes, reopenings and prunes, from an empty directory or any consistent one, the segments stay well formed, the records ever completed are numbered from 1 without reuse or gap, and what is retained is the end of that sequence. |
| Journal.EmptyIsConsistent | internal/journal/journal.go:97-118 | An empty directory is where such a run may start. |
| Journal.TornTailRecovery | internal/journal/journal.go:344-385 | If a crash leaves any prefix of the line in flight, Open keeps exactly the records whose newline landed and touches no byte before them; it resumes from the last of them if and only if the torn record was not the first of a second or later segment. |
| Journal.TornTailCanRestart | internal/journal/journal.go:344-385 | With one whole record in a full first segment and any part of the second record's line in the next, Open resumes from 0. |
| Journal.ReopenChangesNothing | internal/journal/journal.go:97-118 | With no append cut short, closing and opening change neither files nor numbers. |
| Journal.ReopenKeepsWholeLines | internal/journal/journal.go:97-118 | Open keeps the complete lines and takes its number from the newest file. |
| Journal.PlaceRefinesAppend | internal/journal/journal.go:132-213 | Placing a record, with or without rotation, appends it to the flat sequence and keeps the segments well formed. |
| Journal.PlaceFillsSegments | internal/journal/journal.go:164-213 | A new segment is begun exactly when the newest, not empty, has no room for the record. |
| Journal.FlatIsNumbered | internal/journal/journal.go:314-335 | The segments in base order hold consecutive numbers ending at the last. |
| Journal.FromIsSuffix | internal/journal/journal.go:216-232 | Of consecutively numbered records, those from a number on are a suffix. |
| Journal.ReplayIsExact | internal/journal/journal.go:216-264 | Skipping files loses nothing: a replay yields exactly the retained records from a number on, in order. |
| Journal.PruneIsInvisible | internal/journal/journal.go:269-291 | No replay from the pruned-to number or later can tell that segments went. |
| Journal.ScanEncoded | internal/journal/journal.go:344-385 | Scanning whole lines and a torn tail finds the lines' records and where they end. |
| Journal.LoadEncoded | internal/journal/journal.go:235-264 | Reading a segment back gives its records from a number on. |
| Journal.LoadOddLines | internal/journal/journal.go:235-264 | Empty lines are passed over, a last line without its end counts, and a line that does not parse is an error. |
| Journal.ReplayFile | internal/journal/journal.go:235-264 | The scanner's loop yields what the segment holds from a number on, or the error for a corrupt line. |
| Journal.RepairTail | internal/journal/journal.go:344-385 | The loop finds the last complete record and where it ends, or reports corruption. |
| Journal.Sift | internal/journal/journal.go:269-291 | The loop removes exactly the leading segments that may go. |
| Journal.Journal.Open | internal/journal/journal.go:97-118 | Opens a directory unless its newest segment is corrupt: the tail is cut to whole lines, and the number is that of the last of them; a directory of well-formed segments gives a valid journal of their records. |
| Journal.Journal.EnsureSegment | internal/journal/journal.go:164-213 | The newest file has room for the record, or a new one is started. |
| Journal.Journal.Append | internal/journal/journal.go:132-160 | The next number, with no reuse and no gap, and the record at the end of the sequence. |
| Journal.Journal.AppendAt | internal/journal/journal.go:398-427 | Accepts a record exactly if it carries the next number; changes nothing otherwise. |
| Journal.Journal.Replay | internal/journal/journal.go:216-232 | Hands over exactly the retained records from a number on. |
| Journal.Journal.Prune | internal/journal/journal.go:269-291 | Whole segments go, and no replay from the given number on changes. |
| Blob.Land | internal/blob/blob.go:122-175 | Storing content keeps every file sound and what was there untouched. |
| Blob.LandedExactly | internal/blob/blob.go:122-175 | At most one file is new: the content's own, as of the moment it lands. |
| Blob.Store.Put | internal/blob/blob.go:122-175 | A duplicate leaves the first copy alone and says so. |
| Blob.Store.Open | internal/blob/blob.go:178-187 | The content of a sound store has the name's hash. |
| Blob.Store.Remove | internal/blob/blob.go:206-215 | Removes one file; removing an absent one succeeds. |
| Blob.Store.Verify | internal/blob/blob.go:246-257 | True exactly when the file's content has its name's hash. |
| Replica.SecondaryIsAPrefix | internal/store/replica.go:207-305 | After any run of primary and secondary, with failures and crashes anywhere, the secondary's journal is a prefix of the primary's, its recovered index is that prefix's fold, and every bound key reads back locally. |
| Replica.SecondaryCountersMatch | internal/index/index.go:440-476 | The secondary's counters too equal a full walk at every moment and after recovery. |
| Replica.NetStepKeepsInv | internal/store/replica.go:207-305 | Every step of either side keeps the invariant behind it. |
| Replica.PullStopsAtFirstMissing | internal/store/replica.go:207-245 | A pull stops exactly at the first record whose blob cannot be had: every record before it could be, and it cannot. |
| Replica.PullReducesLag | internal/store/replica.go:207-245 | With every blob to be had, a pull cuts the lag by a whole batch or to nothing. |
| Replica.PullsCatchUp | internal/store/replica.go:207-245 | And repeated pulls reach lag 0, one per batch, if the primary stands still. |
| Replica.BusyPrimaryIsCaughtUp | internal/store/replica.go:207-245 | However busy the primary stays between pulls, everything it had logged arrives with one pull per batch of what was missing, if every put to come can be had. |
| Replica.PrimaryAnswers | internal/store/replica.go:105-130 | Every put to come can be had while the primary holds the blobs of them all. |
| Replica.PullIsARun | internal/store/replica.go:207-269 | What the code's pull does to a store is a run of the two machines. |
| Replica.PullKeepsThePrefix | internal/store/replica.go:207-269 | So after it the secondary is a prefix, its recovered index that prefix's fold, and its blobs local. |
| Replica.StepExtends | internal/store/replica.go:78-104 | A primary's journal only grows. |
| Replica.PageFollows | internal/store/replica.go:78-104 | The page served is the next batch of the journal. |
| Replica.Secondary.FetchBlob | internal/store/replica.go:287-305 | A blob is accepted only under its own hash. |
| Replica.Secondary.ApplyOne | internal/store/replica.go:253-269 | Blob, then journal, then index, stopping at the first failure. |
| Replica.Secondary.ApplyBatch | internal/store/replica.go:227-234 | The batch's records in order, until one fails. |
| Replica.Secondary.Pull | internal/store/replica.go:207-245 | One batch in order, stopping at the first failure; what is noted of the lag after a full batch, after a failure, and after an empty batch, where the difference is taken in 64 unsigned bits. |
| Listing.ListingIsExact | internal/s3/server.go:263-347 | Following tokens with pages of at least one: it ends, each ungrouped key with the prefix after the start appears once and in order, and the groups are exactly the shortest parts of such keys that end in a delimiter after the prefix. |
| Listing.GroupIsShortest | internal/s3/server.go:318-329 | The group of a key is its shortest part, longer than the prefix, that ends in a delimiter there, and a key without such a part has none. |
| Listing.PageIsFull | internal/s3/server.go:305-312 | A page holds at most what was asked for, and exactly that when there is more. |
| Listing.PagingIsExact | internal/s3/server.go:281-345 | Over all pages the contents are the ungrouped keys and the groups exact; no page repeats a group, though two may. |
| Listing.PagesAreTheKeys | internal/s3/server.go:281-345 | Without a delimiter the pages concatenate to the keys. |
| Listing.TokenResumes | internal/s3/server.go:281-345 | The token leads to exactly what the page left. |
| Listing.TokensFollowKeys | internal/s3/server.go:281-345 | Following tokens is going on over the remaining keys. |
| Listing.ZeroMaxKeysStalls | internal/s3/server.go:281-345 | With max-keys 0 a page claims more and gives no way to get it. |
| Listing.IndexIsFirst | internal/s3/server.go:318-329 | A group ends at the first delimiter after the prefix. |
| Listing.WithPrefixAscends | internal/index/index.go:302-321 | The keys with a prefix keep their order, and are those with the prefix. |
| Listing.WalkPrefix | internal/index/index.go:302-321 | Seeking to the prefix and stopping at the first key without it visits exactly the keys with it. |
| Listing.ListObjects | internal/s3/server.go:263-347 | The walk with its page-full stop yields the page. |
| Listing.List | internal/s3client/client.go:215-262 | The client's loop collects exactly the keys with the prefix, in order. |
| ByteStrings.PrefixIsInterval | internal/index/index.go:302-321 | The keys with a prefix are contiguous in bytewise order. |
| ByteStrings.PrefixNotBelow | internal/index/index.go:302-321 | And none is below the prefix. |
| ByteStrings.BelowExactly | internal/index/index.go:302-321 | Keys compare as their first different bytes do, and one that ends there comes first. |
| Chunked.RoundTrip | internal/s3/chunked.go:62-185 | Any non-empty chunks within the limit, framed with or without signatures and closed, are read back by reads of any sizes in full and in order, and then the end. |
| Chunked.DrainServesAll | internal/s3/chunked.go:62-78 | Reads serve what is owed, in order, and end only when nothing is. |
| Chunked.TakeFramed | internal/s3/chunked.go:81-132 | A framed chunk is taken whole and moves the chain as the encoder's did. |
| Chunked.HeaderReads | internal/s3/chunked.go:81-132 | A chunk header gives back its size and signature. |
| Chunked.ClosingEnds | internal/s3/chunked.go:81-176 | The zero chunk with up to sixteen trailers ends the stream, at the encoder's chain value. |
| Chunked.LostChunkEnds | internal/s3/chunked.go:114-132 | A stream stopping right after a chunk's data ends cleanly. |
| Chunked.TruncationIsSilent | internal/s3/chunked.go:16-185 | For every cut of a whole stream, signed or not: what is served is exactly the chunks whose frame arrived but for its last byte; the end is an ordinary one if and only if the cut is at a chunk's beginning, at the end of its data, one byte later, or in the closing once its header parses; and a failure otherwise. |
| Chunked.CutFrame | internal/s3/chunked.go:81-132 | How the reader ends on a chunk's frame cut anywhere short of its last two bytes, and with which failure. |
| Chunked.CutClosing | internal/s3/chunked.go:81-176 | How it ends on the closing cut anywhere. |
| Chunked.CutOwes | internal/s3/chunked.go:62-132 | What a reader of a cut stream owes before its end, and which end that is. |
| Chunked.Arrived | internal/s3/chunked.go:62-132 | The number of chunks served after a cut, bounded by where the frames before and after end. |
| Chunked.SkipsCutTrailers | internal/s3/chunked.go:162-176 | Trailers cut short never exceed the limit that the whole ones meet. |
| Chunked.ChunkedReader.ReadInto | internal/s3/chunked.go:62-78 | One read of the reader that the results about round trips, truncation and signatures are about. |
| Chunked.ChunkedReader.NextChunk | internal/s3/chunked.go:81-132 | One chunk decoded, verified and buffered, or the fault; which signatures pass is Signatures.SignaturesAreChecked. |
| Signatures.SignaturesAreChecked | internal/s3/chunked.go:81-132 | With verification, of chunks framed under any hexadecimal signatures exactly those before the first wrong one are served; then the failure comes if and only if there is one, the closing chunk included. |
| Signatures.OnlySignedIsServed | internal/s3/chunked.go:16-23 | Over any input and any reads, all that is served with verification is the beginning of chunks the input carries one after another, each under 32 MiB and under a header that names the chain's signature of its data. |
| Signatures.WrongSignatureStops | internal/s3/chunked.go:118-124 | A chunk under a signature that is not the chain's is refused. |
| Chunked.OversizeIsRefused | internal/s3/chunked.go:98-100 | A chunk that claims more than 32 MiB is refused before any of it is read. |
| Chunked.NegativeIsRefused | internal/s3/chunked.go:93-97 | A negative size is refused. |
| Chunked.BareLineIsSkipped | internal/s3/chunked.go:86-91 | One bare line end before a header makes no difference. |
| Chunked.TrimSpaceExactly | internal/s3/chunked.go:93-94 | Around a size only white space goes, and all of it. |
| Chunked.TrimEndExactly | internal/s3/chunked.go:179-185 | Off a line only line ends go, and all of them. |
| Chunked.CutAtExactly | internal/s3/chunked.go:93-93 | A header is cut at its first semicolon. |
| Chunked.ManyTrailersFail | internal/s3/chunked.go:162-176 | More than sixteen trailing headers are a failure. |
| Chunked.ChunkedReader.NextLine | internal/s3/chunked.go:179-185 | One line off the input. |
| Chunked.ChunkedReader.Skip | internal/s3/chunked.go:162-176 | The trailers up to the empty line, or the fault. |
| Numbers.ParseFormat | internal/s3/chunked.go:81-132 | A printed number reads back exactly while it fits in 64 bits. |
| Canonical.DecodeEncode | internal/s3/sigv4.go:336-349 | Percent-encoding decodes back to its input. |
| Canonical.EncodeIsPlain | internal/s3/sigv4.go:336-349 | Encoded text is unreserved characters and percent signs. |
| Canonical.EncodedByte | internal/s3/sigv4.go:333-349 | Letters, digits and four marks stay, and any other byte becomes a percent sign and two upper-case digits. |
| Canonical.CanonicalPathIsInjective | internal/s3/sigv4.go:295-307 | Two paths have one canonical form exactly if they are equal, or one is empty and the other the root. |
| Canonical.DecodePath | internal/s3/sigv4.go:295-307 | The canonical path decodes to the path, separators and all. |
| Canonical.QueryMeansItsPairs | internal/s3/sigv4.go:310-331 | Two queries have one canonical form exactly if every key has every value equally often in both. |
| Canonical.QueryAscends | internal/s3/sigv4.go:310-331 | The pairs are joined by ampersands, in bytewise order of keys and, under one key, of values. |
| Canonical.QueryIsOrderFree | internal/s3/sigv4.go:310-331 | The canonical query does not depend on the order of values. |
| Canonical.QueryIsDetermined | internal/s3/sigv4.go:310-331 | When every key has a value, the canonical query determines keys and values. |
| Canonical.RenderIsInjective | internal/s3/sigv4.go:310-331 | The rendering determines the sequence of pairs. |
| Canonical.SortedUnique | internal/s3/sigv4.go:310-331 | Sorting leaves no choice. |
| Canonical.UriEncode | internal/s3/sigv4.go:336-349 | The server's loop gives the encoding, which decodes back. |
| Canonical.CanonicalUri | internal/s3/sigv4.go:295-307 | The loop over the segments gives the canonical path. |
| Canonical.CanonicalQueryString | internal/s3/sigv4.go:310-331 | The loops over sorted keys and values give the canonical query. |
| Canonical.Rfc3986 | internal/s3client/client.go:445-457 | The client's encoder gives the same text. |
| Canonical.EncodePath | internal/s3client/client.go:410-419 | The client's path encoder gives the same text. |
| Canonical.EncodeQuery | internal/s3client/client.go:422-440 | The client's query encoder gives the same text. |
| Ranges.AcceptedExactly | internal/s3/server.go:683-727 | A Range header is accepted exactly if it spells one range that can be met. |
| Ranges.SpeltRange | internal/s3/server.go:683-727 | And then the span holds exactly the bytes asked for. |
| Ranges.RangeIsInside | internal/s3/server.go:683-727 | An accepted range lies inside the object, and is empty only if the object is. |
| Ranges.RangeRoundTrip | internal/s3client/client.go:178-188 | What GetRange prints is read back as asked, cut off at the end of the object, if and only if the offset is inside, the length positive and the last position fits in 64 bits. |
| Ranges.Serve | internal/s3/server.go:378-402 | The whole object, or the part selected, or the refusal. |
| Ranges.ReadRemoteAt | internal/agent/access.go:83-97 | Fills the buffer with exactly the bytes from the offset, as many as there are. |
| Ranges.Read | internal/mount/mount_linux.go:312-326 | A streamed read never fails while the recorded size is right, and returns exactly the bytes of the object it covers. |
| Ranges.ReadsCompose | internal/mount/mount_linux.go:312-326 | Reads in any sizes give what one read of their total size gives. |
| Agent.LastBytesAreNeverLost | internal/agent/recall.go:156-181 | In every reachable state, for every file the site wrote and did not remove: synced or evicted, its last bytes are on the store; otherwise they are local. |
| Agent.EvictionIsInvisible | internal/agent/recall.go:19-28 | Size, modification time and mode are always those last written, evicted or not. |
| Agent.CacheChangesNothing | internal/agent/recall.go:59-181 | Any sequence of evictions, recalls, uploads, scans and watcher's events leaves what the site sees of a file unchanged. |
| Agent.ScanDeletesOnlyRemoved | internal/agent/agent.go:193-217 | A scan takes from the store only what the site removed, never an evicted object. |
| Agent.RecallUndoesEvict | internal/agent/recall.go:103-181 | Recall after eviction puts the very file and entry back. |
| Agent.EchoOnlyDirties | internal/agent/agent.go:404-445 | An event on a file nobody changed, such as the echo of a recall, leaves file, store and what the site sees as they were; the entry is dirty again and its pin lost, and the upload that follows changes nothing on the store. |
| Agent.WriteIsEditAndEvent | internal/agent/agent.go:404-445 | A write the agent hears of is a change on disk and the event it causes. |
| Agent.ScanRemovesExactly | internal/agent/agent.go:193-217 | In any world a scan takes from the store exactly the objects whose entry says local, whose file is absent and whose deletion gets through. |
| Agent.ScanIndexesExactly | internal/agent/agent.go:146-217 | In any world a scan indexes afresh exactly the files that are new or whose size or time is not their entry's, drops exactly the local entries whose file is gone and whose removal is recorded, and leaves every other entry alone. |
| Agent.HalfEvictionIsARemoval | internal/agent/recall.go:173-178 | An eviction stopped between the file and the index is taken for a removal if and only if the deletion gets through. |
| Agent.DownEditIsFound | internal/agent/agent.go:109-126 | After a file changed while the agent was down, starting puts its entry right if and only if size or time changed, or neither the mode did nor the content of an object that counts as stored. |
| Agent.DownEditCanBeLost | internal/agent/agent.go:160-193 | A synced file changed in content but not in size or time goes unseen, and the next eviction takes its only copy. |
| Agent.SweepSettles | internal/agent/agent.go:331-358 | Once the swept keys are uploaded, everything indexed and not removed is on the store. |
| Agent.StepKeeps | internal/agent/agent.go:146-323 | Every step keeps each written file settled, or due to be seen by the next scan. |
| Agent.PassIsEvictions | internal/agent/recall.go:262-272 | A pass leaves what evicting its candidates one by one leaves. |
| Agent.PassIsReachable | internal/agent/recall.go:262-272 | So the results about reachable states hold after a pass. |
| Agent.Site.HandleEvent | internal/agent/agent.go:404-445 | A removal only queues the key, a directory is scanned, a vanished file or an event without a change is passed over, and any other event indexes the file afresh as dirty and queues it. |
| Agent.Site.SendFile | internal/agent/agent.go:256-309 | An object not yet on the store is sent, and its entry marked synced only if an attempt was accepted and recorded; anything else is left alone. |
| Agent.Site.TryToSend | internal/agent/agent.go:263-305 | The loop of attempts: at most five, an answer that may pass is tried again, and the object may be stored though none was accepted. |
| Agent.OutcomeExactly | internal/agent/agent.go:263-305 | An upload is done exactly if an attempt it comes to is accepted and recorded, and leaves the store untouched exactly if none it comes to is accepted or arrives all the same. |
| Agent.Site.Evict | internal/agent/recall.go:159-181 | Refuses what is not on the store; otherwise the file goes and the entry stays. |
| Agent.Site.Recall | internal/agent/recall.go:59-100 | The file comes back from the store unless it is here; it succeeds exactly if it was here, or the store has the object and the fetch and its recording got through, and only a fetch notes the access. |
| Agent.Site.Fetch | internal/agent/recall.go:103-153 | With the recorded modification time and mode. |
| Agent.Site.SetPinned | internal/agent/recall.go:184-196 | Pins or releases a known object. |
| Agent.Site.Remove | internal/agent/agent.go:312-323 | The store first, then the index. |
| Agent.Site.NoticeFile | internal/agent/agent.go:146-193 | One file against its entry. |
| Agent.Site.Notice | internal/agent/agent.go:146-193 | All files against their entries, with what was found counted. |
| Agent.Site.RemoveGone | internal/agent/agent.go:205-217 | Each entry whose file is gone is removed as far as the store lets it. |
| Agent.Site.RunScan | internal/agent/agent.go:146-217 | Both halves, and the counts reported. |
| Agent.Site.Begin | internal/agent/agent.go:109-126 | Starting is a scan. |
| Agent.Site.Sweep | internal/agent/agent.go:331-358 | Exactly the keys not yet on the store. |
| Agent.Site.Gather | internal/agent/recall.go:236-254 | The pool holds each eligible object once, and the protected ones are counted. |
| Agent.Site.EvictToFit | internal/agent/recall.go:215-281 | Nothing happens when nothing is over; otherwise what goes, one object at a time, is the choice below, for the target the limits give, and local bytes fall by exactly the bytes freed. |
| Agent.Site.EvictPool | internal/agent/recall.go:231-281 | For any target: the pool gathered, sorted and consumed, with the counts reported. |
| Agent.Site.TakeInOrder | internal/agent/recall.go:262-272 | The loop over the pool, passing over files that cannot be removed. |
| Eviction.OverBy | internal/agent/recall.go:285-299 | The least number of bytes whose release meets both the ceiling and the floor. |
| Eviction.ChosenIsShortest | internal/agent/recall.go:256-272 | The choice is the shortest prefix of the usable pool that reaches the target, or all of it. |
| Eviction.ColdestGoFirst | internal/agent/recall.go:256-261 | Nothing left behind is colder than anything taken, or as cold and larger. |
| Eviction.PassTakesTheColdest | internal/agent/recall.go:231-272 | In terms of the index: what a pass takes is synced, large enough, and neither pinned nor protected, and no such object that could be removed and was not is colder, or as cold and larger. |
| Eviction.EligibleExactly | internal/agent/recall.go:236-254 | What a pass may take is exactly what is synced, large enough, and neither pinned nor protected. |
| Eviction.OverByIsLeast | internal/agent/recall.go:285-299 | Freeing that much, and no less, brings the site to its ceiling and its floor. |
| Agent.SkippableExactly | internal/agent/recall.go:236-254 | The objects counted as protected are the movable ones with a pin or under a pattern. |
| Eviction.PassReachesItsGoal | internal/agent/recall.go:215-281 | A pass ends below the ceiling and above the floor, unless it has taken all it could. |
| Eviction.Sort | internal/agent/recall.go:256-261 | Sorted by coldness, then size, nothing lost. |
| Eviction.SortedStillLists | internal/agent/recall.go:256-261 | The sorted pool still lists each eligible object once. |

## Left out

- ObjectStore.Store.PutWith: input and output errors other than the ones in its result type are not modelled; a failing disk is a crash.
- Durations in statistics and reports.
- ObjectStore.Store.CompleteUpload: the parts are assembled from the blobs as they are at the call, in one step; the streaming through a temporary file is not shown.
- Waiting.SparedPartsWait: it holds of the runs its conditions admit, since for others the grace period does not cover the parts of uploads (Refinement.RebuildForgetsParts, Refinement.RecoveryForgetsParts).
- Machine.ReplayRefinesLivePath: it is stated without open uploads; what recovery and rebuild make of those is Overlap.RecoveryWithOpenUploads and Fsck.RebuildWithOpenUploads.
- Replica.Secondary.Pull: the transport, the shared secret and the JSON of a page are a page of records and a map of the blobs that answer.
- The chunk signer is any function to hexadecimal text; that it is an HMAC chain over dates and scopes is left out.
- Listing.ListObjects: the base64 wrapping of the continuation token and the XML of a page are left out; the entries' sizes and tags are looked up but not part of the page.
- Agent.Site.SendFile: back-off times and the stop signal are left out; a shorter list of answers stands for being stopped.
- Agent.Site.Recall: simultaneous recalls of one key, which the source lets share one download, and the time limit are left out, as is the process's umask.
- Agent.Site.RunScan: one clock reading stands for those of the single entries, and the order of the walk is any order.
- Eviction.Sort: the order among candidates equally cold and equally large is whatever the sort gives, here as in the source.
- Zero times: a zero access time in the index's Put and a zero modification time in PutWith, which the source replaces by the clock, are always given by the caller here.
- Scanner limits: a journal line longer than the replay buffer of 4 MiB is not distinguished.
- The journal's unknown operations, which apply refuses, cannot be written in the model.
- Quotes around entity tags in a completion request, and the size and hash formats of metadata, are plumbing around the functions modelled.
- A write during an upload, which the source marks as synced, and two mutations at once, for which the source gives no guarantee.
- fillAttr shows an evicted file's times in whole seconds and a mode of zero as 0644; results about size, time and mode concern the index and the files.
- HTTP, XML, routing, signatures beyond their canonical forms, authorization, presigned requests, clock skew, FUSE and fsnotify, free-space probing, configuration, logging, the status socket, the command line, Scrub and the PHP plugin: input and output, or single-branch code.
- Goroutines, tickers and queues: the machine takes steps in any order, one at a time.

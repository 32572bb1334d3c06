# A verified model of sproutfs checkpoints

sproutfs keeps a VM's volumes as checkpoints in an object store. A checkpoint is an immutable root that names the
pages of every volume, by the checkpoint whose parts hold them; a control record selects the checkpoint a VM resumes
from; readers fetch pages through a shared memory cache, a local disk log and the other caches of the deployment.
This project models the logic of that core and proves what it promises:

- **Publication** (`Refs`, `Geometries`, `Roots`, `PartWriters`, `Liveness`, `TableBuilding`, `Sealing`, `Requests`,
  `Publications`, `Lineage`): trim, edit, compaction, segment writing and the pruning of the root's entries, composed
  into `Commit`. What a published root reads is compared with a definition that knows nothing of segments, parts or
  compaction (`TableBuilding.Expected`), and that is carried through every chain of publications and forks, whose every
  root reads back as it was written.
- **Reclamation** (`Reclamation`, `Reachability`, `Survival`): the sweeps, and a state machine over every VM, fork, pin,
  kept checkpoint, writer and unfinished sweep in which nothing reachable is ever deleted, and every index somebody may
  read through keeps reading the same.
- **The control record** (`ControlRecords`, `ControlProtocol`, `ControlSafety`, `ControlHandles`): the conditional-write
  protocol of one record under any interleaving of any number of callers, with puts that land late, more than once or
  not at all and replies that are lost.
- **The disk cache** (`Bitmaps`, `WindowEntries`, `DiskIndexes`, `RegionLogs`, `Slots`, `Restarts`, `Sums`): the packed
  window index against the plain set of copies it stands for, the log with its second chance, the life of a slot under
  concurrent reads, and recovery after a restart.
- **Shared fetches** (`SharedFetch`): one load per key, pins, leases and disposal in the memory cache.
- **Reading** (`PageTables`, `RootCodecs`, `Locating`, `Runs`, `Reading`, `Grouping`): the codecs of segments and roots
  with their round trips, and the byte-level reads and extents of a published volume.
- **Filling** (`Repairs`, `FillQueues`): which stripes a repair sends where, and the byte budget of the fill queue.

Where the source updates a structure in place the model is a class, and where it loops the model loops. Integers are
unbounded; the widths that matter (the 24-bit length and 7-bit read count of an item word, the 32-bit halves of a
sequence, the 32-bit fields of a stored page) are written out.

## Where the code and its documentation differ

Five properties that the documentation states, or that a reader of the code would expect, do not hold as stated. Each
has a member with a concrete run, and members with the exact condition under which it does hold.

- `volume/kept.go:22-25` says nothing a writer publishes loses a page to a release's sweep. A selection may land
  although its writer was told it failed (`control/client.go:653-702`); the writer's base is then older than the
  selected checkpoint, and the sweep may take what that base names (`Reachability.ReleaseBehindAWriterLosesPages`). A
  release is safe exactly when what it would sweep is disjoint from what the writer's base names
  (`Reachability.ReleaseIsSafeIff`), which a writer caught up with its record always meets
  (`Reachability.CaughtUpSpares`).
- `checkpoint/checkpoint.go:128-134` says the slack of a part over its target is one page's envelope. A compaction
  appends a moved state, which may be as long as the target itself, to whatever part is in hand
  (`checkpoint/publication.go:823-837`), and the part may then be refused (`PartWriters.MovedStateOverruns`). A state
  fits behind whatever may be in hand exactly when its envelope is within the slack (`PartWriters.FitsBehindIff`), as a
  page's always is; a commit that inherits such a state, or none, never fails on a part
  (`Publications.Publication.Commit`).
- A restart finds again the copy of a key that was live, unless that key was forgotten and filled again in the same
  region: the region's table then lists it twice and the older entry wins (`Restarts.RefilledInPlaceIsLost`). Exactly
  the copies whose region lists their key once are found (`Restarts.RestartFindsIff`, `Restarts.Recovery.Restart`), and
  the key itself is always found (`Restarts.RestartLosesNothing`).
- A change that succeeds reports what the store held at an instant of the call, except a change asked again of a handle
  whose own record already has it: nothing is asked of the store, and the record may have been replaced
  (`ControlSafety.RepeatedSelectMayBeStale`). The promise holds of every run of a call exactly when the call is not such
  a repeat of a record the store no longer holds (`ControlSafety.AlwaysHeldIff`).
- A pin and a release of one kept checkpoint exclude each other when both come without the epoch; the writer's own pin
  asks nothing of the kept list and may follow the release (`ControlProtocol.WriterPinsWhatWasReleased`). Both appear in
  a history exactly when the writer pins the checkpoint while it is not kept (`ControlProtocol.PinMeetsReleaseIff`).

## Model

| member | source | states |
|---|---|---|
| `Refs.SortedRefs` | checkpoint/index.go:265-285 | the references of a root in the one order the encoding uses: every one of them, once, ascending |
| `Refs.AscendingUnique` | checkpoint/index.go:265-285 | two ascending listings of the same references are equal, so an encoding does not depend on map order |
| `Geometries.SegmentSplit` | checkpoint/geometry.go:86-95 | a page number is recovered from its segment and its offset in it |
| `Geometries.SegmentJoin` | checkpoint/geometry.go:86-95 | and the segment and offset are recovered from the page number |
| `Geometries.PageInVolume` | checkpoint/geometry.go:69-100 | a page has bytes exactly when the volume counts it, and is then in a segment the volume counts |
| `Geometries.OnlyLastSegmentStraddles` | checkpoint/publication.go:396-428 | after a shrink only the segment of the new last page can hold pages past the end, so trimming one segment is enough |
| `Roots.BytesInZero` | checkpoint/publication.go:672-691 | a checkpoint has no live bytes exactly when no page is read from it |
| `Roots.ReadsAnswer` | checkpoint/index.go:89-99 | the uses a root records for a segment answer, for every checkpoint, what reading the whole segment would |
| `Roots.ReadsName` | checkpoint/index.go:89-99 | a segment's uses name a checkpoint exactly when one of its pages is read from it |
| `Roots.ExtendsKeepsReading` | checkpoint/index.go:443-470 | a root stays self-consistent as objects are added to the store |
| `Roots.ExtendsKeepsPage` | checkpoint/index.go:443-470 | and every page of it keeps reading the same |
| `PartWriters.PartWriter.Submit` | checkpoint/partwriter.go:284-386 | a submitted member gets a place of its own under its origin and no earlier member moves; a part that has filled, or whose table would, is sealed first, and the member is refused exactly when that part is past its bound; only a member longer than a page, joining a part already begun, can take a part past its bound |
| `PartWriters.PartWriter.Finish` | checkpoint/partwriter.go:516-551 | once finished every member lies in a sealed part within the maximum part size; it fails exactly when the members, table and trailer of some part are past it |
| `PartWriters.PartWriter.Seal` | checkpoint/partwriter.go:394-436 | seals the part in hand exactly when its members, table and trailer are within the maximum part size |
| `PartWriters.FitsBehindIff` | checkpoint/checkpoint.go:128-134 | a member fits behind everything that may be in hand, with every table a part may have, exactly when its envelope is within the slack |
| `PartWriters.MovedStateOverruns` | checkpoint/checkpoint.go:128-134 | for every incompressible state whose envelope is past the slack there are pages behind which it makes a part that cannot be sealed |
| `Liveness.AddPages` | checkpoint/publication.go:672-691 | adds to each checkpoint the bytes of the pages read from it, in whatever order the pages come |
| `Liveness.AddUses` | checkpoint/publication.go:672-691 | adds to each checkpoint the bytes a segment's recorded uses give it |
| `Liveness.ChooseRewrites` | checkpoint/publication.go:704-840 | compaction rewrites only mostly dead, unprotected checkpoints of this VM, the deadest first: one is taken exactly when it fits what the deader ones taken leave of the byte budget, and none left out fits what is left |
| `Liveness.GreedyUnique` | checkpoint/publication.go:704-840 | there is only one such choice |
| `TableBuilding.IsZeroMeansAllZero` | checkpoint/publication.go:544-550 | the shifted comparison finds exactly the pages of zeroes |
| `TableBuilding.Reads` | checkpoint/index.go:89-99 | computes the uses a root records for a segment |
| `TableBuilding.MovedReadsSame` | checkpoint/publication.go:635-664 | a moved page keeps its identity and its bytes and is no longer read from a rewritten checkpoint |
| `Sealing.RootReadsView` | checkpoint/publication.go:435-463 | the written root reads exactly the table that was built, segment by segment, with uses to match and no empty segment |
| `Sealing.RootNames` | checkpoint/index.go:889-902 | a root names itself, nothing its parent did not, and everything its own compaction emptied |
| `Sealing.RootWellFormed` | checkpoint/index.go:731-858 | the published root is self-consistent: every checkpoint it reads it names, with parts enough, inside its volumes |
| `Sealing.CompactionClears` | checkpoint/publication.go:704-840 | after compaction no page is read from a rewritten checkpoint |
| `Sealing.MeaningPreserved` | checkpoint/publication.go:241-328 | every page of the published checkpoint reads as its publication asked: the source's bytes where edited, a hole where those are zero, the parent's page otherwise, cut at the new size |
| `Sealing.ReplacedViewStaysNamed` | checkpoint/index.go:889-902 | the new root names every checkpoint the replaced view reads an unedited page from |
| `Sealing.RewrittenAreEmptied` | checkpoint/publication.go:704-840 | a rewritten checkpoint stays in the root, marked emptied by this one |
| `Sealing.RootIsLegal` | checkpoint/index.go:731-858 | the names, sizes, identities, addresses and counts of a published root are ones a reader accepts |
| `Sealing.FinishedIsCommitted` | checkpoint/publication.go:241-328 | the phases together give what a commit promises |
| `Publications.Publication.constructor` | checkpoint/publication.go:97-114 | a publication starts from its parent's volumes with nothing edited, and fails from the start under an identity or a sequence a reader would refuse |
| `Publications.Publication.SetSize` | checkpoint/publication.go:135-145 | resizes a known volume of a valid name to whole sectors; anything else fails the publication and changes no volume |
| `Publications.Publication.Add` | checkpoint/publication.go:151-162 | adds a volume of a valid new name, whole sectors and a supported geometry; anything else fails the publication |
| `Publications.Publication.SetVCPUs` | checkpoint/publication.go:203-209 | records a processor count exactly when it is between one and the maximum; anything else fails the publication |
| `Publications.Publication.SetNested` | checkpoint/publication.go:213-215 | records whether a boot of the checkpoint is nested |
| `Publications.Publication.Trim` | checkpoint/publication.go:396-428 | leaves of the parent's pages exactly those inside the new sizes |
| `Publications.Publication.TrimVolume` | checkpoint/publication.go:396-428 | cuts one volume and touches no segment of another |
| `Publications.Publication.WriteEdits` | checkpoint/publication.go:474-521 | each edited page is the source's bytes under this checkpoint's identity, or a hole where they are zero; every other page is untouched; with parts within their bound it fails exactly when a page is past its volume's end or cannot be read |
| `Publications.Publication.LiveBytes` | checkpoint/publication.go:672-691 | counts the true live bytes of every other checkpoint, although it reads only the segments in hand |
| `Publications.Publication.MovePages` | checkpoint/publication.go:635-664 | moves exactly the pages of rewritten checkpoints, each with its bytes and identity |
| `Publications.Publication.ProtectedCheckpoints` | checkpoint/publication.go:611-625 | what is protected is exactly every protected checkpoint and all its root names; it fails exactly when one cannot be read |
| `Publications.Publication.ChooseEmptied` | checkpoint/publication.go:704-840 | the checkpoints emptied are the greedy choice by true live bytes, every segment opened, of those no protected one names, within the budget |
| `Publications.Publication.LiveIsAsked` | checkpoint/publication.go:672-691 | those live bytes are what the request keeps of each checkpoint: the pages of the parent neither cut off nor edited, and an inherited state |
| `Publications.Publication.Compact` | checkpoint/publication.go:704-840 | compaction empties that choice: it moves its checkpoints' pages and state, one member for each, and changes nothing that is read; with parts within their bound it fails only on an unreadable protected root |
| `Publications.Publication.MoveState` | checkpoint/publication.go:823-837 | a state in a rewritten checkpoint is appended to the part in hand with its identity and bytes, whatever that part already holds |
| `Publications.Publication.WriteSegments` | checkpoint/publication.go:435-463 | writes every changed segment one after another past the record of the index object, apart from each other and ending after the sum of their envelopes, drops the empty ones and leaves the rest at their old addresses; fails exactly when a segment is longer than an index object takes |
| `Requests.DirtyIsChanged` | checkpoint/publication.go:384-394 | the segments written are exactly those that are no longer what the root addressed |
| `Requests.BuiltLays` | checkpoint/publication.go:241-328 | the table the phases build is what the request comes to: which checkpoints are emptied, where every page and the state lie, which segments changed and how the members lie in parts |
| `Requests.ViewMay` | checkpoint/publication.go:435-463 | every segment of it is one of the finitely many the request allows |
| `Requests.RootMay` | checkpoint/publication.go:584-604 | and so is its root |
| `Requests.EndWithin` | checkpoint/publication.go:568-604 | the segments of the index object end by what the segments the request may touch come to at their longest |
| `Requests.SmallSucceeds` | checkpoint/publication.go:568-604 | when every segment and root the request allows is within its bounds, the segments, the root and the index object built are |
| `Requests.ShortPagesAreSmall` | checkpoint/index.go:587-624 | a codec that spends at most 64 bytes on a page makes no segment too long, for any request |
| `Publications.Publication.Commit` | checkpoint/publication.go:241-328 | given known volumes, readable edits and readable protected roots, what is built is what the request comes to, and the commit succeeds exactly when its parts, its changed segments, its root and its index object are within their bounds; it succeeds whenever the inherited state is within the slack and everything the request allows is within its bounds; a root it leaves is self-consistent, legal to every reader, reads every page, state, processor count and nesting as asked, and names only its parent's checkpoints and itself and everything the replaced view reads; it names an unknown or ephemeral volume exactly |
| `Lineage.PublicationKeepsConsistent` | checkpoint/publication.go:241-328 | one more publication, from any root, keeps the account of what every identity means |
| `Lineage.EveryRootIsWellFormed` | checkpoint/index.go:731-858 | in any chain of publications and forks every root ever published stays self-consistent |
| `Lineage.ChainIsLegal` | checkpoint/index.go:731-858 | and legal to every reader |
| `Lineage.EveryRootRoundTrips` | checkpoint/index.go:482-571 | so every root of every chain can be encoded, is accepted back, and its message says exactly that root |
| `Lineage.Reopen` | checkpoint/store.go:218-278 | reading back any root of any chain gives that root |
| `Lineage.CommitExtends` | checkpoint/publication.go:241-328 | a commit over a root of a chain is the next step of the chain, so what it leaves encodes, is accepted and says itself |
| `Lineage.IdentityMeansBytes` | checkpoint/index.go:287-293 | in any such chain, two pages under one identity, in any two roots, have the same bytes |
| `Reclamation.Reclaimer.ProtectedBy` | checkpoint/reclaim.go:97-115 | what a protected root keeps is its names and itself, the same from the memo as from the store |
| `Reclamation.Reclaimer.SpareProtected` | checkpoint/reclaim.go:74-85 | takes from the dead exactly what some protected root keeps, and fails exactly when one can be neither remembered nor read |
| `Reclamation.Reclaimer.Reclaim` | checkpoint/reclaim.go:38-68 | deletes exactly this VM's checkpoints the previous root names, less those the current root or a protected one names; refuses exactly mismatched roots, fails otherwise only on an unreadable protected root, and then deletes nothing |
| `Reclamation.Reclaimer.DeleteVM` | checkpoint/reclaim.go:160-213 | removes every object of the VM but what a pinned root keeps, and touches no other VM; fails exactly on an unreadable pinned root |
| `Reclamation.ReplacedViewSurvivesSweep` | checkpoint/index.go:889-902 | the sweep behind a publication takes nothing a reader of the replaced view needs for an unedited page |
| `Reachability.PublishKeeps` | volume/publish.go:586-644 | publishing over a live base keeps the invariant |
| `Reachability.SelectKeeps` | volume/publish.go:781-794 | so does a selection and the sweep it starts |
| `Reachability.ForkKeeps` | volume/fork.go:571-614 | so does a fork, which reads through a pin of its parent |
| `Reachability.RemoveKeeps` | volume/manager.go:328-343 | so does a removal and the sweep of what its pins do not keep |
| `Reachability.RemovalSpares` | checkpoint/reclaim.go:160-213 | a removal's sweep takes nothing any live index of any VM names |
| `Reachability.DeadSparesLive` | checkpoint/reclaim.go:38-68 | a sweep that spares the VM's writers spares every live index of every VM |
| `Reachability.CaughtUpSpares` | volume/kept.go:22-25 | a writer whose base is the selected checkpoint loses nothing to a release |
| `Reachability.ReleaseKeepsIff` | volume/kept.go:29-65 | a release keeps the invariant exactly when its sweep spares what the writer publishes over |
| `Reachability.ReleaseIsSafeIff` | volume/kept.go:22-25 | exactly then every deletion that may follow leaves every live index whole |
| `Reachability.UnsparingReleaseLoses` | volume/kept.go:29-65 | otherwise there is a deletion after which a writer's base names a missing checkpoint |
| `Reachability.StepKeeps` | checkpoint/reclaim.go:38-115 | every step of every VM, and every single deletion of an unfinished sweep, keeps the invariant |
| `Reachability.NothingReachableIsDeleted` | checkpoint/reclaim.go:160-213 | in every reachable state everything a selected, pinned, kept or written-over index names is in the store, removed VMs' pins included |
| `Reachability.ReleaseBehindAWriterLosesPages` | volume/kept.go:22-25 | a run in which a release sweeps a checkpoint its writer's own index names |
| `Survival.WithoutReadsSame` | checkpoint/reclaim.go:38-68 | an index reads the same pages and state without the objects of a checkpoint it does not name |
| `Survival.CommitIsAStep` | checkpoint/publication.go:241-328 | what a commit leaves over a writer's base is a publication the state machine takes: itself and its parent's names, in objects of its own |
| `Survival.RunStores` | checkpoint/reclaim.go:38-68 | in every run every index with all its checkpoints in the store is self-consistent there, and every object is of a checkpoint that is present |
| `Survival.LiveReadsSame` | checkpoint/reclaim.go:160-213 | in every run, whatever was published, released, removed and swept since, an index somebody may read through reads every page and its state as when it was published |
| `Survival.WriterCanPublish` | volume/publish.go:586-644 | at every instant a writer's base is self-consistent in the store and a reference never used is free in it, which is what a commit needs |
| `ControlRecords.Sequence` | control/control.go:124-149 | a sequence is its epoch over its counter, and both are recovered from it |
| `ControlRecords.LaterEpochsAllocateHigher` | control/control.go:124-149 | every sequence of a later epoch is above every sequence of an earlier one |
| `ControlRecords.PinKeepsValid` | control/record.go:129-138 | a pin adds itself and nothing else and leaves the list ascending and within its limit |
| `ControlRecords.OpenKeepsValid` | control/client.go:215-264 | an open writes a valid record |
| `ControlRecords.SelectKeepsValid` | control/client.go:522-544 | a selection writes a valid record that only advances |
| `ControlRecords.ChangesAreValid` | control/record.go:225-267 | every change writes a valid record that evolves the one before, never selecting past its epoch |
| `ControlRecords.ChangesSettle` | control/client.go:522-569 | a change asked again of its own result has nothing left to write, which is what makes a retry safe |
| `ControlRecords.ReleasesOnce` | control/client.go:400-439 | a release asked again is refused |
| `ControlProtocol.ChainValid` | control/record.go:225-267 | every record ever stored is valid |
| `ControlProtocol.HistoryOnlyAdvances` | control/client.go:653-702 | epochs, selections and pins only advance between any two stored records |
| `ControlProtocol.ReleaseIsFinal` | control/client.go:388-439 | a checkpoint behind the selected one, once not kept, is never kept again |
| `ControlProtocol.ForkedStaysKept` | control/client.go:388-439 | a kept checkpoint that is pinned stays both |
| `ControlProtocol.PinNeedsKeep` | control/client.go:318-386 | a checkpoint behind the selected one is newly pinned only while kept, or by the writer's own fork |
| `ControlProtocol.ReleasedIsNeverPinned` | control/client.go:388-439 | once released it is never pinned, but by a writer that forks a checkpoint no longer kept |
| `ControlProtocol.PinAndReleaseExclude` | control/client.go:388-439 | a pin and a release of one kept checkpoint never both appear in a history without such a fork |
| `ControlProtocol.PinMeetsReleaseIff` | control/client.go:557-569 | both appear exactly when the writer forks the checkpoint while it is not kept |
| `ControlProtocol.WriterPinsWhatWasReleased` | control/client.go:557-569 | a history in which the writer's own pin follows a release |
| `ControlSafety.StepKeeps` | control/client.go:587-702 | every step of every caller and of the store keeps the invariant of the protocol |
| `ControlSafety.RunKeeps` | control/client.go:587-702 | so every reachable state has it |
| `ControlSafety.RunGrows` | control/client.go:653-702 | what the store has held is only added to |
| `ControlSafety.RecordOnlyAdvances` | control/client.go:653-702 | in any run the stored record only advances, is always valid and never selects past its epoch |
| `ControlSafety.OlderEpochsNeverLand` | control/client.go:87-110 | a put that can still land, however late, is later than everything the store ever held, so no older epoch's write lands after a newer open |
| `ControlSafety.OneHandlePerEpoch` | control/client.go:215-264 | no two handles have one epoch, whatever acknowledgements were lost |
| `ControlSafety.OneOpenAfter` | control/client.go:203-264 | of any number of opens after one epoch at most one gets a handle |
| `ControlSafety.SuccessWasStored` | control/client.go:653-702 | an open, create or change that succeeds reports a record the store held during the call, with its effect in it, unless the handle's own record already had it when the call began |
| `ControlSafety.TrackedWasStored` | control/client.go:522-569 | a change the handle's own record answers reports a record the store once held, with its effect in it, and is a repeat exactly when the call read nothing back |
| `ControlSafety.SuccessIsHeld` | control/client.go:653-702 | along any path from the call on, a success reports a record stored at an instant of it, or repeats what the handle had |
| `ControlSafety.AlwaysHeldIff` | control/client.go:522-569 | every success of a call, in every run, reports what the store held during it exactly when the call does not repeat, of a working handle, a record the store no longer holds |
| `ControlSafety.RepeatedSelectMayBeStale` | control/client.go:522-544 | a run in which a repeated selection reports a record already replaced |
| `ControlSafety.EpochsAreOpened` | control/client.go:215-264 | between two epochs of the history lies the open of each one |
| `ControlSafety.FencedOnlyByAnOpen` | control/client.go:571-609 | a handle is fenced only when an open of the next epoch landed |
| `ControlSafety.SelectionLosesNothing` | control/client.go:494-544 | a selection that retried over others' writes loses no pin and brings back nothing released |
| `ControlSafety.PinOrRelease` | control/client.go:388-439 | of a pin and a release of one kept checkpoint racing, at most one succeeds while no writer forks it unkept |
| `ControlSafety.RemovalReportsThePins` | control/client.go:280-316 | a removal that succeeds leaves no record and reports the pins of the last one, although pins may race it |
| `ControlHandles.WriterHandle.constructor` | control/client.go:466-469 | a handle starts from the record and tag its open wrote |
| `ControlHandles.WriterHandle.Replace` | control/client.go:653-702 | one conditional write and its read-back: settle, adopt and retry, stop or fence, exactly by what the store holds |
| `ControlHandles.WriterHandle.Update` | control/client.go:587-609 | the retry loop, over any sequence of replies |
| `ControlHandles.AfterWriteOwns` | control/client.go:642-702 | after one write the handle still holds its own record, and is fenced exactly when the store showed another owner's |
| `ControlHandles.ChangeSettles` | control/client.go:571-609 | over any replies, a change that succeeds is in the handle's record, and a handle is fenced only by another owner's record |
| `Bitmaps.RankInOrder` | checkpoint/diskindex.go:189-223 | the number of set bits below a page is its place among the pages |
| `Bitmaps.CountBelow` | checkpoint/diskindex.go:189-223 | counting whole words and one masked word counts the set bits below |
| `WindowEntries.WordFields` | checkpoint/diskindex.go:84-109 | length, reads and forgotten do not disturb one another, and reads saturate |
| `WindowEntries.BitsSayFollows` | checkpoint/diskindex.go:225-249 | the two bitmaps and the last item decide exactly whether an item comes next in the run |
| `WindowEntries.AddLays` | checkpoint/diskindex.go:251-281 | an item that follows keeps the run a prefix of the page-by-stripe grid |
| `WindowEntries.ItemsDiffer` | checkpoint/diskindex.go:135-163 | no run lists a page and stripe twice |
| `WindowEntries.WindowEntry.Find` | checkpoint/diskindex.go:189-223 | finds exactly the item of that page and stripe, its word and its file offset, in either form, or says none is listed |
| `WindowEntries.WindowEntry.Rank` | checkpoint/diskindex.go:189-223 | in the dense form counting bits gives the position of exactly that item |
| `WindowEntries.WindowEntry.ExtendsIffFollows` | checkpoint/diskindex.go:225-243 | extends answers yes exactly for the item that comes next in this run of this region and code |
| `WindowEntries.WindowEntry.Add` | checkpoint/diskindex.go:251-289 | appends one item, changes the form when it must, and charges exactly the difference |
| `WindowEntries.WindowEntry.Densify` | checkpoint/diskindex.go:251-281 | the dense form marks exactly the listed pages and keeps every word |
| `WindowEntries.WindowEntry.WordAt` | checkpoint/diskindex.go:173-179 | the word of the item at a position, in either form |
| `WindowEntries.WindowEntry.SetWord` | checkpoint/diskindex.go:181-187 | changes that word and nothing else |
| `WindowEntries.WindowEntry.Each` | checkpoint/diskindex.go:428-455 | visits exactly the live items, in log order, with their pages, stripes and offsets |
| `DiskIndexes.InsertRepresents` | checkpoint/diskindex.go:346-366 | one more item in a run is one more copy in the set, and no other |
| `DiskIndexes.WordRepresents` | checkpoint/diskindex.go:368-392 | forgetting a word takes exactly that copy; reading it takes none |
| `DiskIndexes.DropRepresents` | checkpoint/diskindex.go:394-416 | dropping a run takes exactly its copies |
| `DiskIndexes.DiskIndex.Lookup` | checkpoint/diskindex.go:309-330 | finds a copy exactly when the set holds one of that key, and gives its place |
| `DiskIndexes.DiskIndex.Insert` | checkpoint/diskindex.go:346-366 | adds exactly that copy, whichever run it extends or starts, keeping the charged bytes and live count exact |
| `DiskIndexes.DiskIndex.ForgetItem` | checkpoint/diskindex.go:368-384 | takes exactly that copy if it is still listed and live, and the entry with its last |
| `DiskIndexes.DiskIndex.ReadItem` | checkpoint/diskindex.go:386-392 | counts a read in the word of a listed item, forgotten or not, and changes no other word and no copy |
| `DiskIndexes.DiskIndex.RemoveEntry` | checkpoint/diskindex.go:394-408 | takes a whole run, once, and leaves every other |
| `DiskIndexes.DiskIndex.DropRegion` | checkpoint/diskindex.go:410-416 | takes exactly the copies in that region |
| `RegionLogs.TablesAreShorter` | checkpoint/disk.go:152-156 | an item's table entry is shorter than the item |
| `RegionLogs.HalfFits` | checkpoint/disk.go:660-698 | half a region of rescued items always leaves room for their table and trailer |
| `RegionLogs.RegionLog.SecondRoom` | checkpoint/disk.go:662-698 | a second chance opens at most one region, and only under the share |
| `RegionLogs.RegionLog.SecondChance` | checkpoint/disk.go:662-698 | rewrites the longest affordable prefix of the hot items, in order, with their reads reset |
| `RegionLogs.RegionLog.Evict` | checkpoint/disk.go:624-657 | evicts the oldest region, keeps of it exactly what its second chance rewrote, as the newest, and holds its space while it is read |
| `RegionLogs.EvictionCools` | checkpoint/disk.go:611-657 | an eviction leaves fewer hot items, or as many and fewer regions, which is why making room ends |
| `RegionLogs.RegionLog.Room` | checkpoint/disk.go:356-394 | evicts the fewest of the oldest regions, each after its second chance, that leave room in the last region or for another one, and none while either is there; opens one only where the last has no room; refuses exactly when no region is left and none may be opened |
| `RegionLogs.SurvivorsStand` | checkpoint/disk.go:611-657 | what is left of a log after evictions is the regions not reached, as they were and in order, and after them only what second chances wrote again |
| `RegionLogs.RegionLog.Append` | checkpoint/disk.go:292-329 | makes room that way and writes the items whole at the end of the open region, changing no other region; a log nobody reads never refuses under a share of two |
| `RegionLogs.RegionLog.Fit` | checkpoint/disk.go:734-762 | shrinks to a smaller share by dropping exactly the oldest regions, those still read included |
| `Slots.InsertSlotIs` | checkpoint/disk.go:552-556 | the free list stays ascending and gains exactly that slot |
| `Slots.StepKeeps` | checkpoint/disk.go:411-448 | every interleaved step of opens, reads, evictions and give-backs keeps the invariant |
| `Slots.EverySlotIsOneThing` | checkpoint/disk.go:411-448 | every slot is free or one region's, never both and never two regions' |
| `Slots.GivenBackUnread` | checkpoint/disk.go:624-657 | an evicted region starts no read, and is given back only after its last read |
| `Slots.GivenBackOnce` | checkpoint/disk.go:703-721 | no region is given back twice, whichever of eviction and last reader comes second |
| `Slots.ReopenedEmpty` | checkpoint/disk.go:703-732 | a slot is opened again only with its old contents punched out |
| `Slots.HeldWithinShare` | checkpoint/disk.go:396-406 | the held count is the number of regions, within the share, and an ordinary open leaves one for a second chance |
| `Restarts.ItemsFind` | checkpoint/diskrestart.go:335-355 | a table adds exactly the first entry of each key not already found |
| `Restarts.RegionsFind` | checkpoint/diskrestart.go:213-293 | reading newest first finds exactly the newest region's first entry of each key |
| `Restarts.FilledKeeps` | checkpoint/diskstripes.go:208-252 | a fill of a key not held keeps the log's invariant |
| `Restarts.RescuedKeeps` | checkpoint/disk.go:662-698 | so does a rescue, which lists a key in a newer region |
| `Restarts.EvictedKeeps` | checkpoint/disk.go:624-657 | so does an eviction, after which no older copy of a live key remains |
| `Restarts.LogRunKeeps` | checkpoint/disk.go:292-329 | so every run of opens, fills, forgets, rescues and evictions keeps it |
| `Restarts.RestartFindsIff` | checkpoint/diskrestart.go:335-355 | after a clean restart a live copy is found exactly when its region lists its key once |
| `Restarts.RestartLosesNothing` | checkpoint/diskrestart.go:213-293 | every live key is found |
| `Restarts.RefilledInPlaceIsLost` | checkpoint/diskrestart.go:335-355 | a log whose restart finds the forgotten copy of a key and not the live one |
| `Restarts.Recovery.Keep` | checkpoint/diskrestart.go:330-355 | keeps a region exactly when it adds copies, which are the first entry of each key not already found, and stops within its limit when the index is full |
| `Restarts.Classify` | checkpoint/diskrestart.go:295-317 | every slot is exactly one of tabled, torn and gone |
| `Restarts.SortNewest` | checkpoint/diskrestart.go:213-293 | orders the tables newest first and loses none |
| `Restarts.Recovery.ReadTables` | checkpoint/diskrestart.go:213-293 | the copies are those of the tables, newest first, and every slot is kept, torn or gone |
| `Restarts.Recovery.ScanTorn` | checkpoint/diskrestart.go:213-293 | torn regions are scanned after the tables and override none of them |
| `Restarts.Recovery.ReadRegions` | checkpoint/diskrestart.go:213-293 | every slot is used once or free, the regions come back oldest first, and the copies are those of the tables and then of the scans |
| `Restarts.CleanRestart` | checkpoint/diskrestart.go:213-293 | over a file left by a clean shutdown that order is the log's own, reversed |
| `Restarts.Recovery.Restart` | checkpoint/diskrestart.go:213-293 | after any run of the log, a clean shutdown and a restart the index takes whole, a live copy is found exactly when its region lists its key once, and every live key is found |
| `SharedFetch.Cache.Admit` | checkpoint/cache.go:681-756 | every key is granted its own entry or flight, the keys nobody had start in one load, and the call waits exactly when it needs a slot and none of its kind is left |
| `SharedFetch.Cache.StartLoad` | checkpoint/cache.go:681-756 | a load takes one slot of its kind; a fault never waits for a slot a prefetch holds |
| `SharedFetch.Cache.AddFlight` | checkpoint/cache.go:681-756 | a key nobody has gets its one flight |
| `SharedFetch.Cache.Join` | checkpoint/cache.go:681-756 | a key on its way is joined, not fetched again |
| `SharedFetch.Cache.Leave` | checkpoint/cache.go:926-947 | leaving gives up exactly one hold; a load goes on while anybody waits for a key of it, and its last waiter stops it and frees its keys |
| `SharedFetch.Cache.Cancel` | checkpoint/cache.go:926-947 | a cancelled load is stopped, and exactly its keys can be fetched afresh |
| `SharedFetch.Cache.LandFlight` | checkpoint/cache.go:1022-1048 | a fetched value is retained exactly when it has a lease and a waiter and nothing was cleared since |
| `SharedFetch.Cache.Finish` | checkpoint/cache.go:1022-1048 | every flight of the load ends with its own result: without an entry where nothing came, and otherwise with a new one of its key, for exactly those waiting on it, retained exactly when it was charged, is waited on and held, and nothing was cleared since; the slot is given back |
| `SharedFetch.Cache.KeepTable` | checkpoint/cache.go:785-804 | keeps a table exactly when nobody has or fetches its key |
| `SharedFetch.Cache.Pin` | checkpoint/cache.go:681-756 | a pin is one more reader of an entry made most recent |
| `SharedFetch.Cache.Release` | checkpoint/cache.go:1050-1065 | gives back one pin and disposes only what no reader and no retention holds |
| `SharedFetch.Cache.DropEntry` | checkpoint/cache.go:1067-1082 | a dropped entry is unlisted and its lease returned; it is disposed only when unread |
| `SharedFetch.Cache.Reclaim` | checkpoint/cache.go:1084-1100 | drops the least recent unread entry, exactly when there is one |
| `SharedFetch.Cache.Clear` | checkpoint/cache.go:607-616 | empties the cache, charges nothing, and leaves every reader its data |
| `SharedFetch.Cache.Close` | checkpoint/cache.go:618-649 | closes once, stops exactly the loads in flight, and leaves every reader its data |
| `SharedFetch.Cache.Promises` | checkpoint/cache.go:681-756 | in every state: no key both retained and fetched, readers counted exactly, disposed exactly when unretained and unread, only entries of the current generation listed, the charge the sum of the leases, the slots within their limits |
| `PageTables.TableBuilder.Add` | checkpoint/pagetable.go:337-360 | takes a page exactly when it is plausible and new, and puts it in its place |
| `PageTables.Parse` | checkpoint/pagetable.go:254-314 | accepts exactly the well-formed segments and holds exactly their pages |
| `PageTables.Parts` | checkpoint/pagetable.go:254-314 | refuses an unlisted reference, and finds the highest part read of each checkpoint |
| `PageTables.EncodingDecodes` | checkpoint/index.go:587-624 | every segment a root may hold is accepted back |
| `PageTables.SegmentRoundTrip` | checkpoint/index.go:587-624 | and reads back as the segment that was written, identities and all |
| `PageTables.Mutable` | checkpoint/pagetable.go:174-182 | the editable copy of a table has exactly its pages |
| `PageTables.CheckTable` | checkpoint/pagetable.go:448-472 | accepts a table exactly when every page of it is in a part its root names, though it looks only at the highest |
| `PageTables.RootAcceptsItsTables` | checkpoint/pagetable.go:448-472 | a self-consistent root accepts every table it addresses |
| `PageTables.RootsAreEncodable` | checkpoint/index.go:587-624 | every segment of a self-consistent root can be encoded |
| `RootCodecs.DecodeCheckpoints` | checkpoint/index.go:731-858 | accepts exactly valid references each listed once |
| `RootCodecs.DecodeVolumes` | checkpoint/index.go:731-858 | accepts exactly volumes of distinct names with well-formed segments, and loads them all |
| `RootCodecs.Decode` | checkpoint/index.go:731-858 | accepts exactly the well-formed roots, and yields what the message says |
| `RootCodecs.RootRoundTrip` | checkpoint/index.go:482-571 | an encoded root is accepted and says exactly that root |
| `RootCodecs.SaysOne` | checkpoint/index.go:731-858 | a message says only one root, so decoding undoes encoding |
| `RootCodecs.WellFormedIsStorable` | checkpoint/index.go:482-571 | a self-consistent, legal root can be encoded |
| `Locating.CoverPage` | checkpoint/pagetable.go:82-129 | one page's extent extends the cover by that page |
| `Locating.CoverHole` | checkpoint/pagetable.go:82-129 | a run of holes extends it by one extent, joined to a hole before it |
| `Locating.LocateIn` | checkpoint/pagetable.go:82-144 | one segment's extents cover its bytes, within the number reserved for them |
| `Locating.Locate` | checkpoint/index.go:432-480 | the extents of a range cover every byte once, in order, each with its page's identity or as a hole, holes never adjacent |
| `Reading.TablesView` | checkpoint/index.go:443-470 | what the decoded tables of a root's segments say of a page is what the root reads it as |
| `Reading.LocateVolume` | checkpoint/index.go:443-470 | the extents of a range of a published volume cover it once, in order, each under the identity its root reads |
| `Runs.RunsSplitNoPage` | checkpoint/run.go:60-66 | no page is split across two runs |
| `Runs.FillPages` | checkpoint/run.go:132-144 | fills exactly the pending bytes, zeroes past the end of short pages |
| `Runs.ResolveRun` | checkpoint/store.go:539-575 | zeroes the holes of a run and lists exactly the wanted pages still to read |
| `Runs.ReadPages` | checkpoint/store.go:492-537 | every wanted byte is its page's or zero, every unwanted byte is untouched, and a refused call changes nothing |
| `Reading.ReadVolume` | checkpoint/store.go:504-537 | a read of a published volume gives, for every wanted byte, the byte its root reads there |
| `Reading.LiveBytesStay` | checkpoint/reclaim.go:160-213 | and in every run that byte is the same for as long as somebody may read through the root |
| `Grouping.Sort` | checkpoint/run.go:302-343 | orders the members by part and offset and loses none |
| `Grouping.JoinedIsSound` | checkpoint/run.go:302-343 | joining a near member keeps the extent within its limit and around all its members |
| `Grouping.GroupMembers` | checkpoint/run.go:302-343 | every wanted member is in exactly one extent that spans it, and a new extent begins only where joining was not allowed |
| `Repairs.Preferred` | checkpoint/clusterread.go:1409-1422 | every stripe, a cache's own first |
| `Repairs.Supply` | checkpoint/clusterread.go:1353-1407 | sends what a cache lacks, of stripes nobody holds, stopping short only when all are held |
| `Repairs.RepairWindow` | checkpoint/clusterread.go:1353-1407 | repairs exactly when every ranked cache answered and none of the window came from an earlier code, and then exactly the rebuilt pages |
| `Repairs.SharesAddUp` | checkpoint/clusterread.go:1353-1407 | the caches' shares are all the stripes |
| `Repairs.RepairPlacesEverything` | checkpoint/clusterread.go:1344-1407 | after a repair of orderly answers every stripe is on exactly one cache and every cache has exactly its share |
| `FillQueues.FillQueue.Reserve` | checkpoint/fill.go:478-492 | grants exactly when the queue is open and the work fits or is alone |
| `FillQueues.FillQueue.Ask` | checkpoint/fill.go:505-582 | paced work passes nobody: granted exactly when none waits and it fits under the high-water mark, else queued last or dropped |
| `FillQueues.FillQueue.GiveRoom` | checkpoint/fill.go:584-596 | grants the longest prefix of the waiting that fits, in order, and tells each of them |
| `FillQueues.FillQueue.Release` | checkpoint/fill.go:610-620 | gives back one piece of work's bytes, once, and passes the room on |
| `FillQueues.FillQueue.Leave` | checkpoint/fill.go:523-582 | one that stops waiting was granted or is taken out, and the room it blocked passes on; after a close nothing changes |
| `FillQueues.FillQueue.Enqueue` | checkpoint/fillsend.go:267-302 | one more job of a placement not yet sealed, unless the queue is closed |
| `FillQueues.FillQueue.End` | checkpoint/fillsend.go:405-429 | the job that ends last of a sealed placement, and only that one, releases it |
| `FillQueues.FillQueue.Seal` | checkpoint/fillsend.go:431-441 | sealing releases exactly a placement with no job left |
| `FillQueues.FillQueue.ReleaseFill` | checkpoint/fill.go:893-919 | the placement's room is given back once and passed on in order |

## Left out

- What the model takes as given: checksums, compression, hashes and the erasure code are functions that round-trip;
  the object store is linearizable for each key, a put may land late, again or never, and equal tags mean equal
  records; nonces and drawn epochs are unique; the fault-injection hooks of the simulator are off.
- The clock, timers, back-off, leases between processes, rates, token buckets and statistics.
- host, vmmachine, vmmemory, vmmigrate, membership, rank, peer and rust are not part of this model; neither are the hot
  tier and the pull of a VM's pages.
- Cluster reads but for the repair at their end: hedging, the choice of caches to ask and the join of answers.
- The order of writes within a commit, batching and back-pressure of the part writer, and a retry under the same
  reference: the parts and the index object are one addition to the store here.
- The protobuf wire format and the byte layout of disk items, tables and headers: codecs are modelled between values and
  messages, and what a value encodes to is a length given with the store's configuration.
- Crash states between two syncs of the disk cache, and failures of the disk or of a punch.
- `diskIndex.clear`, `holdsAny` and the lookup that mixes codes, which only a simulated fault turns on.
- Publications.Publication.Commit: pages come in no particular order here, so of the layouts of members a request
  allows, which one is built is not said; whether a state past the slack fits can turn on that.
- Publications.Publication.SetSize: which of several errors is kept is modelled by Fail and not restated.
- Reachability.StepKeeps: a control-record write is one step; that it may be taken for one is what ControlSafety proves.
  One remover acts on a VM at a time, and an identity with objects left is not created again.
- ControlHandles.WriterHandle.Update: runs over a finite sequence of replies, since the source's loop may retry
  for ever.
- ControlSafety.RunKeeps: the retry loops of Open, Pin and Release are steps of the state machine, so nothing is said of
  their ending.
- RegionLogs.RegionLog.Room: a read may hold a region it evicts, but none ends and the share does not change between
  its steps; that its loop ends needs the rescue threshold of at least one that the configuration gives it.
- RegionLogs.RegionLog.Append: does not model a write that fails.
- Restarts.Recovery.Keep: a region that leaves the index full would have taken it past its limit; what its items would
  have cost is not restated.
- Restarts.Recovery.ReadRegions: does not say which torn regions a full index leaves unread.
- SharedFetch.Cache.Finish: the values themselves and the envelopes handed to the disk are not modelled.

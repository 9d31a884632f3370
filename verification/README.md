# referenced-packs: which packs do these snapshots use?

A model of restic's `referenced-packs` command (`runReferencedPacks`) once
the repository is open and its index is loaded. The command works in three
steps:

1. It counts the blobs the index lists, pack by pack.
2. It marks every blob the selected snapshots use. Two blob sets, `used` and
   `seen`, are created once and shared by every call of `FindUsedBlobs`, one
   call per snapshot root tree. The first failure ends the command.
3. It projects `used` onto the index. A pack is referenced when at least one
   of its entries, taken as an (ID, type) handle, is in `used`.

Files and modules:

- `blobs.dfy` (`Blobs`) holds IDs, blob types, handles, index entries and packs.
- `trees.dfy` (`Trees`) holds the stored trees (file and directory nodes) and
  reachability over the blob graph they form. Reachability is stated with
  explicit paths and serves as the reference definition of "used".
- `find_used.dfy` (`FindUsed`) holds the traversal. It is a worklist of trees
  to expand, guarded by `seen`, with its invariant (`Pending`, `Closed`) and
  its soundness and completeness lemmas.
- `packs.dfy` (`Packs`) holds the blob count, the pack projection as a
  function (`LivePacks`) and as the nested loop (`ProjectPacks`), and their
  properties.
- `referenced_packs.dfy` (`ReferencedPacks`) holds the snapshot loop
  (`Accumulate`), the end-to-end result (`Referenced`), the imperative command
  body (`RunReferencedPacks`) and the end-to-end properties.
- `scenario.dfy` (`Scenario`) is a worked example: three packs and one
  snapshot, then a second snapshot that shares a subtree.
- `wrappers.dfy` (`Wrappers`) holds the `Result` type.

The main result: the command succeeds exactly when every tree the snapshots
use can be loaded. On success it reports exactly the packs holding a blob
that some selected snapshot uses. On failure it names a tree that some
snapshot uses and the repository cannot load, and it reports no pack.

The source of `restic.FindUsedBlobs` is not part of this model. The model
assumes the following of it:

- A subtree reached through a directory node and already in `seen` is skipped.
- A new subtree goes into both `seen` and `used` and is scheduled for expansion.
- The data blobs of a file go into `used` only.
- Loading a tree that does not exist is a failure that ends the call.

Two choices of the model go beyond that; "## Left out" lists them with their
consequences: the root guard, and the worklist order.

## Model

| member | source | states |
|---|---|---|
| Packs.CountBlobs | cmd/restic/cmd_referenced_packs.go:62-65 | the loop's total is the number of entries the index lists, summed over all packs (`EntryCount`) |
| Packs.EntryCountAppend | cmd/restic/cmd_referenced_packs.go:62-65 | the blob count of two pack lists put together is the sum of their counts |
| Packs.EntryCountCoversPack | cmd/restic/cmd_referenced_packs.go:62-65 | every pack's entries are included in the count |
| Packs.LivePacks | cmd/restic/cmd_referenced_packs.go:80-89 | a pack ID is in the result if and only if some pack in the index has that ID and holds an entry whose (ID, type) handle is used |
| Packs.ProjectPacks | cmd/restic/cmd_referenced_packs.go:80-89 | the nested loop over packs and entries builds exactly the set `LivePacks` defines |
| Packs.LivePacksAppend | cmd/restic/cmd_referenced_packs.go:82-89 | projecting two pack lists put together gives the union of their projections, so pack order and a pack listed twice do not matter |
| Packs.LivePacksBound | cmd/restic/cmd_referenced_packs.go:80-86 | a pack with several used entries is recorded once: there are never more referenced IDs than packs |
| Packs.LivePacksMonotone | cmd/restic/cmd_referenced_packs.go:82-89 | a larger used set can only add referenced packs |
| Packs.LivePacksNoneUsed | cmd/restic/cmd_referenced_packs.go:82-89 | with nothing used, no pack is referenced |
| Packs.TypeSeparatesHandles | cmd/restic/cmd_referenced_packs.go:84-85 | membership is tested on the whole handle: used trees never make a pack of data blobs referenced, even when the IDs coincide |
| FindUsed.ExpandNode | cmd/restic/cmd_referenced_packs.go:71 | one node: a file's data blobs become used; a subtree not yet seen becomes seen and used and is scheduled; a subtree already seen is skipped; nothing else changes |
| FindUsed.Expand | cmd/restic/cmd_referenced_packs.go:71 | one tree: each blob it refers to ends up used (or is a tree already seen), each subtree ends up seen, the sets only grow, and exactly the newly seen subtrees are scheduled, none of them twice |
| FindUsed.Drain | cmd/restic/cmd_referenced_packs.go:71 | the worklist terminates, and on success both sets have only grown |
| FindUsed.FindUsedBlobs | cmd/restic/cmd_referenced_packs.go:71 | on success both shared sets have only grown and the snapshot's root tree is seen |
| FindUsed.DrainStepPending | cmd/restic/cmd_referenced_packs.go:67-71 | expanding one scheduled tree keeps the invariant: scheduled trees are seen, and every seen tree is used and either still scheduled or fully expanded |
| FindUsed.DrainClosed | cmd/restic/cmd_referenced_packs.go:67-71 | a successful traversal leaves no seen tree half-expanded |
| FindUsed.DrainSound | cmd/restic/cmd_referenced_packs.go:67-71 | the traversal adds only blobs that a scheduled tree uses, and it fails only on a tree that a scheduled tree uses and the repository cannot load |
| FindUsed.FindUsedBlobsSound | cmd/restic/cmd_referenced_packs.go:70-77 | between snapshots the sets stay closed; one call adds only blobs its snapshot uses, and it fails only on a missing tree that snapshot uses |
| FindUsed.ClosedComplete | cmd/restic/cmd_referenced_packs.go:67-71 | in a closed state, everything a seen tree uses is in `used`, and every tree it uses is seen and stored |
| FindUsed.PathMarked | cmd/restic/cmd_referenced_packs.go:67-71 | in a closed state, every handle on a path from a seen tree is used, and every tree on it is seen and stored |
| ReferencedPacks.Accumulate | cmd/restic/cmd_referenced_packs.go:67-78 | the snapshot loop: on success every selected root tree is in `seen` |
| ReferencedPacks.AccumulateGrows | cmd/restic/cmd_referenced_packs.go:67-71 | the sets are shared and only added to: the sets after snapshot k contain the sets after the snapshots before it |
| ReferencedPacks.AccumulateStopsAtFailure | cmd/restic/cmd_referenced_packs.go:70-78 | once a snapshot fails, later snapshots are not processed and the loop returns that error |
| ReferencedPacks.RepeatedSnapshotIsSkipped | cmd/restic/cmd_referenced_packs.go:67-71 | processing an already processed snapshot again changes neither set |
| ReferencedPacks.AccumulateCorrect | cmd/restic/cmd_referenced_packs.go:67-78 | on success `used` is exactly the set of blobs some selected snapshot uses and the sets are closed; on failure the error names a missing tree some snapshot uses |
| ReferencedPacks.AccumulateSucceedsIffComplete | cmd/restic/cmd_referenced_packs.go:70-78 | the loop succeeds if and only if every tree the snapshots use can be loaded |
| ReferencedPacks.Referenced | cmd/restic/cmd_referenced_packs.go:67-95 | the command succeeds if and only if every used tree can be loaded; then a pack ID is reported if and only if that pack holds a blob some snapshot uses; on failure no pack set is produced and the error names a missing used tree |
| ReferencedPacks.NoSnapshotsNoPacks | cmd/restic/cmd_referenced_packs.go:67-89 | with no snapshot selected the command succeeds with no pack |
| ReferencedPacks.ReferencedMonotone | cmd/restic/cmd_referenced_packs.go:70-89 | selecting more snapshots can only add packs, and if the larger selection succeeds so does the smaller one |
| ReferencedPacks.ReferencedOrderIrrelevant | cmd/restic/cmd_referenced_packs.go:70-89 | the outcome and the pack set depend only on which snapshots are selected, not on their order or repetition |
| ReferencedPacks.RunReferencedPacks | cmd/restic/cmd_referenced_packs.go:67-95 | the imperative loop over snapshots with the shared sets, then the nested projection loop, computes `Referenced`: it succeeds if and only if every used tree can be loaded |
| Scenario.ExampleReferencedPacks | cmd/restic/cmd_referenced_packs.go:67-89 | in the three-pack example, the snapshot references exactly packs A and B; pack C, whose blob no tree refers to, is excluded |
| Scenario.SharedSubtreeCountedOnce | cmd/restic/cmd_referenced_packs.go:67-89 | adding a second snapshot that shares the subtree leaves the result at exactly packs A and B |

## Left out

- The cobra command definition and its registration (lines 14-39) are command-line plumbing.
- Opening the repository, loading the index and selecting snapshots (lines 42-60) are repository I/O. The loaded index becomes the input `seq<Pack>`. The selected snapshots become the input sequence of root tree IDs. The loadable trees become the input map `Repo`. An error from `OpenRepository` (line 43) is never checked, because line 52 overwrites `err`; this model does not cover it.
- The cancellable context (line 44) and cancellation are concurrency plumbing and are not modelled.
- Telling a missing object apart from other errors (lines 73-74) is specific to the storage backend. Every failure is modelled as one outcome, `TreeNotFound`, which names the tree that could not be loaded.
- Printing the pack IDs (lines 91-93) is output. The printed set is modelled as the returned set. The source collects the IDs as the keys of a map, so the result is a set and not a sequence. The order in which Go iterates over a map is not modelled.
- FindUsed.FindUsedBlobs: restic's function is a sequential depth-first recursion that always puts the root tree into `used` and always loads it, and puts into `seen` only subtrees reached through a directory node. The model instead puts a new root into both sets and skips a root already in `seen`. The `used` set and whether the call succeeds come out the same. The difference is that a root enters `seen` here even when no directory refers to it, so the "root is seen" clauses of `FindUsedBlobs` and `ReferencedPacks.Accumulate` describe the model, not the program, and a repeated root is not reloaded (`RepeatedSnapshotIsSkipped`).
- FindUsed.Drain: the worklist is expanded first-in first-out, not depth-first as restic's recursion does. The final sets are the same. When more than one used tree is missing, the tree named in the error can differ from the one restic names; the model only promises that it names some missing tree the snapshot uses.
- Tree nodes other than files and directories (symlinks, devices and so on) refer to no blob, so they are not modelled.
- Packs.CountBlobs: the count is a mathematical integer, not Go's `int`, which is 32 or 64 bits wide depending on the platform. Wrap-around is not modelled: it needs more than 2^31 - 1 index entries on a 32-bit build (2^63 - 1 on a 64-bit one), and the command computes the count but never uses it.
- IDs are opaque 32-byte values compared for equality. Hashing is not modelled.
- A pack's type and size play no part in liveness and are not represented: `Pack` holds only the pack ID and its entries. The offset and length of each entry are carried in `Entry` and never inspected.

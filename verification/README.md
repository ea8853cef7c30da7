# inkhole-core: the receiving transfer engine and the state machines around it

Inkhole moves files and folders between devices. This project models the part of `inkhole-core` that must
survive crashes, arbitrary timing and other people's files, and proves what it keeps.

* **The resumable store and the stream protocol.** A transfer leaves sidecar records (`metadata`, `manifest`,
  `commit`, `done`) and partial data (a `.part` file or a staging directory). `Disk.Workspace` holds them and the
  destination names. Every awaited file system call is one `Call`: before it, anybody else may change
  destination names, and the process may stop instead of making it. An early error return leaves the disk as a stop
  there would. `FileTransfer`, `FileCommit` and `FileSession` follow `prepare`, `finalize`, `recover_commit` and the
  byte loop for files; `FolderStaging`, `FolderReceive`, `FolderTransfer`, `FolderPrepare`, `FolderCommit` and
  `FolderSession` do so for folders, where one concatenated stream is cut back into files from a checkpoint.
  `Runs` puts any number of sessions one after another, with stops, cuts, pruning, other offers under the same id
  and other people's changes. `Sender` is the other end of the stream. `Locks` shows that one store runs at most one
  session per transfer id at a time, and `CommitLock` that no transfer in a store replaces what another has put at a
  destination.
* **Manifests and trees.** `Manifest` is the one-pass check, and `ManifestTrees` says which accepted manifests a tree can
  match; `FolderCheck` and `FolderScan` are the receiver's and the sender's traversals of a `FolderTree`, and agree.
  `Names` is destination naming.
* **Step machines.** `EventQueue` and `Wakeups` (service events), `Discovery` (verified peers and probes), `Tunnel`
  (record stream), `Rendezvous` and `Wormhole` (mailbox protocol), `Dns` and `DialRace` (dialling), `Signing`.
* `Text`, `Wrappers` and `Offers` hold what the others share.

Three hypotheses are explicit. `kept` is the set of destination names nobody else creates, changes or removes; claims
about one destination are made for those names, because a commit record does not reserve its name. Hashing,
canonicalisation, encryption and signature checks are functions about which nothing else is assumed (encryption: that
decryption inverts it; one lemma about equal trees: that the digest does not collide). An unchanged source is one that sends what
follows the point it is told to resume from, as far as the connection lasts.

The main theorem over runs (`Runs.RunSessions`) says of any sessions, however they were stopped, cut, pruned or
interfered with, that every receipt is sound; and of the sessions of one unchanged source, with nobody else at the names
it may be given and with other offers in between once the source has the transfer id, that the next one with the whole
stream leaves the source at its destination, unless it stops before it has made as many calls as it may need, finds all
2^32 - 1 names taken, or meets a folder's metadata record left without its manifest. How many calls that is, is a bound in
the bytes, the entries and the names taken (`FileSession.FileCalls`, `FolderSession.FolderCalls`).

Five places where the code does less than one might expect, stated as found. Metadata written without its manifest (a
stop between two writes of `prepare_folder`) is refused from then on, until it is pruned (`FolderPrepare.StopBetweenRecords`).
A manifest may list a directory under another spelling than the paths below it use; it is accepted, and where a file
system tells the spellings apart no tree matches it (`ManifestTrees.MatchableIff`, `ManifestTrees.AcceptedUnmatched`).
A commit record does not reserve its name: a transfer that stops after it can find something else there, and so can one
whose finished destination was edited or replaced. Then every session under its id is refused, the transfer's own and any
other, with nothing changed, until the record is pruned (`Runs.NameTaken`, `Runs.FolderNameTaken`, the last clause of
`Runs.RunSessions`; `CommitLock.NameNotReserved` has another transfer of the same store take the name). A transfer id is a
UUID in either letter case, and locks go by its spelling: where a file system ignores case, two ids that differ in case
only have two locks and one set of sidecar files (`Locks.SharedUpToCase`).
The encoding of signed messages is injective exactly for fields shorter than 2^32 bytes (`Signing.InjectiveBelowIff`);
what is signed arrives in frames of at most 64 KiB, so no caller comes near the bound.

## Model

| member | source | states |
|---|---|---|
| `Names.MakeSafeFilename` | rust/crates/inkhole-core/src/protocol.rs:811-829 | The loop over the characters computes the specified safe name: base name, forbidden characters replaced, trailing dots and spaces dropped, reserved and empty names avoided |
| `Names.SafeFilenameIsSafe` | rust/crates/inkhole-core/src/protocol.rs:811-829 | Whatever is received, the resulting name has no separator, control or forbidden character, no trailing dot or space, is not empty, `.`, `..` or a reserved device name |
| `Names.SafeFilenameFixpoint` | rust/crates/inkhole-core/src/protocol.rs:811-829 | A name is left alone exactly when it is already safe |
| `Names.SafeFilenameIdempotent` | rust/crates/inkhole-core/src/protocol.rs:811-829 | Making a name safe twice is making it safe once |
| `Names.ValidDestinationNameIff` | rust/crates/inkhole-core/src/state.rs:853-862 | A recorded destination name is accepted exactly when it is a safe name and a plain path component |
| `Names.CandidateIsValid` | rust/crates/inkhole-core/src/state.rs:633-647 | Every name the allocation can return for a safe name, numbered ones included, is accepted again by the check of recorded names |
| `Names.CandidateInjective` | rust/crates/inkhole-core/src/state.rs:637-643 | Differently numbered candidates are different names, so the search never tries one twice |
| `Manifest.Validate` | rust/crates/inkhole-core/src/protocol.rs:510-586 | The single pass accepts a manifest exactly when its entries are in strict path order, canonically distinct, each below directories listed earlier by their canonical paths, with sizes, digests and times in range and at most 2^40 bytes; it returns the exact total, and its checked additions never overflow |
| `Manifest.CheckEntry` | rust/crates/inkhole-core/src/protocol.rs:526-583 | One turn of the loop accepts an entry exactly when it extends the listing read so far |
| `Manifest.BelowAFile` | rust/crates/inkhole-core/src/protocol.rs:548-554 | The inner loop finds out whether any proper ancestor of the path is a listed file |
| `Manifest.AncestorDirectory` | rust/crates/inkhole-core/src/protocol.rs:535-555 | Testing the direct parent and the absence of files above implies that every ancestor is a listed directory |
| `Manifest.AdmitsIffExtends` | rust/crates/inkhole-core/src/protocol.rs:526-583 | The tests on one entry hold exactly when the listing with it is still a tree listing |
| `Manifest.OnlyDirectoriesHaveDescendants` | rust/crates/inkhole-core/src/protocol.rs:548-554 | In an accepted manifest nothing lies below a file |
| `Manifest.PathsDistinct` | rust/crates/inkhole-core/src/protocol.rs:528-533 | Strict order makes all paths different |
| `ManifestTrees.MatchableIff` | rust/crates/inkhole-core/src/protocol.rs:535-546 | Some tree matches an accepted manifest exactly when every directory an entry lies in is listed under that very spelling, and the files have contents of their size and digest |
| `ManifestTrees.AcceptedUnmatched` | rust/crates/inkhole-core/src/protocol.rs:535-546 | With lower-casing, a directory listed as `Q` and a file listed as `q/b` are accepted, and no tree matches them: such an offer can never be completed where the two names differ |
| `FolderCheck.ValidateContents` | rust/crates/inkhole-core/src/state.rs:783-842 | One call at a time, with others changing a destination in between: success means a well-formed manifest whose every item was seen as listed during the call; and where nobody changes anything, exactly a directory with the listed paths, kinds, sizes and digests is accepted |
| `FolderCheck.Traverse` | rust/crates/inkhole-core/src/state.rs:786-841 | The stack traversal terminates whatever others do, with at most three calls for each listed item, accepts only listed items and each once; undisturbed, it succeeds exactly when all items fit and none is missing |
| `FolderCheck.CheckDirectory` | rust/crates/inkhole-core/src/state.rs:793-834 | Reading one directory accepts only items seen as listed, and undisturbed keeps the traversal invariant or finds an item that does not fit |
| `FolderCheck.CheckItem` | rust/crates/inkhole-core/src/state.rs:804-833 | One name is accepted only if it is listed, not seen before and seen as listed; undisturbed, exactly then |
| `FolderCheck.HashItem` | rust/crates/inkhole-core/src/state.rs:824-827 | The hash is of what is there when it is read, which need not be what the size was read of |
| `FolderTree.WalkDone` | rust/crates/inkhole-core/src/state.rs:792-841 | When nothing waits on the stack any more, every item of the tree has been met |
| `FolderTree.MatchesIff` | rust/crates/inkhole-core/src/state.rs:786-841 | Comparing item by item against the lookup table is the same as comparing the tree with the manifest |
| `FolderScan.Scan` | rust/crates/inkhole-core/src/folder.rs:41-133 | The scan succeeds exactly when some well-formed manifest lists the tree; it returns that manifest, with the i-th source belonging to the i-th file entry |
| `FolderScan.Collect` | rust/crates/inkhole-core/src/folder.rs:50-119 | The traversal collects each item once, or finds one that cannot be sent, or more than the limit |
| `FolderScan.ScanDirectory` | rust/crates/inkhole-core/src/folder.rs:52-118 | Reading one directory records each of its items and keeps the traversal invariant |
| `FolderScan.SplitSources` | rust/crates/inkhole-core/src/folder.rs:122-129 | Splitting the sorted list keeps the wire entries in order and the file sources aligned with them |
| `FolderScan.ListingUnique` | rust/crates/inkhole-core/src/folder.rs:121-133 | A tree has one listing, whatever order its directories were read in |
| `FolderScan.ScannedTreeMatches` | rust/crates/inkhole-core/src/folder.rs:50-132 | The receiver's check accepts the scanned tree against the scanned manifest |
| `FolderScan.AcceptedTreeEqualsScanned` | rust/crates/inkhole-core/src/state.rs:783-842 | Any tree the check accepts has exactly the scanned tree's paths, kinds, sizes and digests |
| `FolderScan.AcceptedTreeIsScanned` | rust/crates/inkhole-core/src/state.rs:783-842 | With a digest that does not collide, an accepted tree is the scanned tree |
| `FileTransfer.Prepare` | rust/crates/inkhole-core/src/state.rs:168-223 | Wherever it stops it leaves one of the listed states; a completed receipt is the offer's own, on record, for a destination checked during the call. A destination on record that nobody else touches decides: intact, it is completed with; free, a done record of it is dropped and the offer goes on; anything else is refused and nothing changes. A part is resumed only under an equal offer, and nothing stands in the way of a resumable one; another offer, or one that is not acceptable, changes nothing; at most 20 calls |
| `FileTransfer.RecordedThreeWays` | rust/crates/inkhole-core/src/state.rs:178-191 | A destination on record that nobody else touches is intact, occupied or free, and exactly one of the three |
| `FileTransfer.ReplayDone` | rust/crates/inkhole-core/src/state.rs:178-184 | A done record of the same offer is replayed exactly if its destination is as it should be and dropped exactly if it is gone; anything else there is refused, as is another offer, and nothing changes |
| `FileTransfer.FindFileCommit` | rust/crates/inkhole-core/src/state.rs:186-191 | A commit record of the same offer is recovered exactly if its destination is as it should be and left to be used exactly if it is free; anything else there is refused, as is another offer, and nothing changes |
| `FileTransfer.RecoverCommit` | rust/crates/inkhole-core/src/state.rs:525-557 | Recovery completes exactly what is there as it should be, leaves a free name to be taken, and refuses anything else with nothing changed; the done record is written before anything is removed, and every stop leaves one of the states between |
| `FileTransfer.ValidateCompleted` | rust/crates/inkhole-core/src/state.rs:559-572 | A completed transfer is reported exactly if its destination is as it should be, dropped exactly if it is gone, and refused otherwise |
| `FileTransfer.EnsureFileDestination` | rust/crates/inkhole-core/src/state.rs:864-877 | Success means the destination was a regular file of the right size and then digest; if nobody else touches it, exactly that decides |
| `FileTransfer.CheckDestination` | rust/crates/inkhole-core/src/state.rs:559-567 | Absent, intact and wrong destinations are told apart |
| `FileTransfer.OpenPart` | rust/crates/inkhole-core/src/state.rs:193-222 | The part is the one recorded for an equal offer or an empty one; the offset is its length and at most the size |
| `FileTransfer.PrepareKeeps` | rust/crates/inkhole-core/src/state.rs:168-223 | Wherever `prepare` stops, the records stay consistent and bytes kept for an offer were written under an equal offer |
| `FileTransfer.RecoverKeeps` | rust/crates/inkhole-core/src/state.rs:549-552 | Wherever recovery stops, a record still names the destination |
| `FileTransfer.Append` | rust/crates/inkhole-core/src/transport.rs:1053 | A write that is stopped leaves a beginning of its chunk in the part |
| `FileTransfer.ReceiveBytes` | rust/crates/inkhole-core/src/transport.rs:1024-1070 | For every read size the part grows by exactly the bytes taken off the stream; it ends well exactly with the declared size and an ended stream; progress only grows and ends at the size |
| `FileCommit.UniqueDestination` | rust/crates/inkhole-core/src/state.rs:633-647 | The first free name in candidate order, or an error when all 2^32 - 1 candidates are taken; no more calls than one for each name taken and one more |
| `FileCommit.TakenCount` | rust/crates/inkhole-core/src/state.rs:637-643 | Every name the search finds taken is another one, so it ends after as many as there are |
| `FileCommit.CheckPart` | rust/crates/inkhole-core/src/state.rs:458-474 | A part of the wrong length is kept and one of the wrong digest discarded with its records; only a matching part goes on |
| `FileCommit.ChooseDestination` | rust/crates/inkhole-core/src/state.rs:478-497 | The destination is the recorded one of this offer, or a fresh one recorded before anything is renamed to it |
| `FileCommit.RenamePart` | rust/crates/inkhole-core/src/state.rs:498-501 | The part is renamed only to a name that does not exist, and nothing else changes |
| `FileCommit.Conclude` | rust/crates/inkhole-core/src/state.rs:502-522 | The receipt is returned only after the destination was checked and the done record written; every stop leaves one of the states between |
| `FileCommit.Finalize` | rust/crates/inkhole-core/src/state.rs:456-523 | At most one rename, of a part that matched the offer, to a recorded name; on success the destination was checked in the call; until the rename the recorded name stays free and no record is lost but with a part of the wrong digest; a good part always lands at the first free name unless stopped or all names are taken |
| `FileCommit.StopAfterCommit` | rust/crates/inkhole-core/src/state.rs:494-499 | A process that makes just that many calls stops with the destination on record and nothing there |
| `FileSession.FinalizeKeeps` | rust/crates/inkhole-core/src/state.rs:456-523 | Wherever `finalize` stops, the records stay consistent and the part is unchanged or gone |
| `FileSession.ReceiveFile` | rust/crates/inkhole-core/src/transport.rs:989-1081 | A whole session: at most one rename, of exactly what was kept and what the sender sent; another offer, also one of which only metadata is on record, changes nothing; an intact recorded destination is completed with and nothing else created; anything else there is refused and nothing changes; the whole source, with nobody else at its names, lands at the first free one; the calls it makes are bounded by the bytes and the names taken |
| `FileSession.WholeSession` | rust/crates/inkhole-core/src/transport.rs:1034-1063 | What is kept and what an unchanged source sends from that offset on make up the source |
| `FileSession.HonestSession` | rust/crates/inkhole-core/src/transport.rs:1034-1063 | With an unchanged source the kept part stays a beginning of it, and what may be committed is the source itself; sessions of other offers leave that part as it is |
| `FileSession.ReceiveFrom` | rust/crates/inkhole-core/src/transport.rs:989-1081 | A session of an unchanged source renames nothing but the source, and with the whole of it always lands unless stopped or all names are taken |
| `FolderStaging.EnsureParents` | rust/crates/inkhole-core/src/state.rs:726-742 | Only missing ancestor directories are added; afterwards all of them are there; it fails only on something that is not a directory |
| `FolderStaging.TreeParents` | rust/crates/inkhole-core/src/state.rs:726-742 | In any tree all ancestors of an item are directories |
| `FolderStaging.OpenFolderFile` | rust/crates/inkhole-core/src/state.rs:335-371 | The file is emptied at offset 0 and otherwise has exactly `offset` bytes; only missing directories are added around it; a matching checkpoint is refused by nothing but a stop |
| `FolderStaging.ReceiveEntry` | rust/crates/inkhole-core/src/transport.rs:1170-1200 | The file grows by exactly what it misses, off the one stream, whatever the read sizes and wherever it stops |
| `FolderReceive.VerifyFolderFile` | rust/crates/inkhole-core/src/state.rs:373-391 | A file passes only with the listed size and digest; a matching one always passes; one with another digest is gone afterwards |
| `FolderReceive.ReceiveFolderFile` | rust/crates/inkhole-core/src/transport.rs:1157-1206 | From an unchanged source one file gets exactly its missing suffix, is complete afterwards, and nothing else changes but missing directories |
| `FolderReceive.ReceiveFolderFiles` | rust/crates/inkhole-core/src/transport.rs:1157-1212 | The single stream is cut so that every file from the checkpoint on becomes the source's file; the whole wire is used up exactly; a cut leaves beginnings of the source's files |
| `FolderReceive.HonestStep` | rust/crates/inkhole-core/src/transport.rs:1157-1206 | After one file the rest of the stream is the wire from the next file on |
| `FolderReceive.WireSize` | rust/crates/inkhole-core/src/transport.rs:1157-1206 | The wire from any file on is no longer than the sizes still listed |
| `FolderTransfer.TakeCheckpoint` | rust/crates/inkhole-core/src/state.rs:271-332 | Files before the index are complete and hash-correct, `completed` is the sum of their sizes, the file at the index is the first that is not and holds exactly `offset` bytes; nothing staged is lost but whole files with the wrong digest; from an unchanged source it always succeeds |
| `FolderTransfer.InspectFile` | rust/crates/inkhole-core/src/state.rs:280-321 | One file is complete, resumable at its length, or, exactly if its whole length has the wrong digest, removed |
| `FolderTransfer.ListedFilesSourced` | rust/crates/inkhole-core/src/state.rs:271-276 | A manifest made by scanning lists exactly the source's files, each under a different path |
| `FolderPrepare.PrepareFolder` | rust/crates/inkhole-core/src/state.rs:225-333 | Receipts only for destinations checked in the call and on record. A destination on record that nobody else touches decides: matching, it is completed with; free, a done record of it is dropped and the offer goes on; anything else is refused and nothing changes. Staged bytes are resumed only under an equal offer and manifest, and then kept; the sender's own test accepts every checkpoint; another offer or manifest, and metadata without its manifest, are refused and stay; the calls it makes are bounded by the number of entries |
| `FolderPrepare.RecordedFolderThreeWays` | rust/crates/inkhole-core/src/state.rs:235-250 | A folder destination on record that nobody else touches is intact, occupied or free, and exactly one of the three |
| `FolderPrepare.ReplayFolderDone` | rust/crates/inkhole-core/src/state.rs:235-242 | A done record of the same offer and manifest is replayed exactly if its destination matches item by item and dropped exactly if it is gone; anything else there is refused and nothing changes |
| `FolderPrepare.RecoverFolderCommit` | rust/crates/inkhole-core/src/state.rs:574-610 | Recovery completes exactly what matches item by item, leaves a free name to be taken, and refuses anything else with nothing changed; the done record is written before anything is removed, and every stop, inside the removal too, leaves one of the states between |
| `FolderPrepare.ValidateCompletedFolder` | rust/crates/inkhole-core/src/state.rs:612-631 | A completed folder is reported exactly if it matches, after each of its items was seen as listed during the call; it is dropped exactly if it is gone, and refused otherwise |
| `FolderPrepare.CheckFolderDestination` | rust/crates/inkhole-core/src/state.rs:579-589 | With nobody else at it, true exactly for a well-formed manifest and a folder that matches it, false exactly for a free name, and an error otherwise; true means each listed item was seen as listed during the call |
| `FolderPrepare.OpenFolder` | rust/crates/inkhole-core/src/state.rs:252-269 | Staged data is kept only with equal metadata and manifest on record, and otherwise removed before they are written |
| `FolderPrepare.RemoveStaging` | rust/crates/inkhole-core/src/state.rs:964-980 | A removal that is stopped leaves part of the tree |
| `FolderPrepare.FolderOpenKeeps` | rust/crates/inkhole-core/src/state.rs:252-269 | Wherever it stops, the records stay consistent and staged bytes stay bound to the recorded offer and manifest |
| `FolderPrepare.FolderRecoverKeeps` | rust/crates/inkhole-core/src/state.rs:574-610 | Wherever recovery stops, a record still names the destination and what is staged is still the source's |
| `FolderPrepare.StoppedRecording` | rust/crates/inkhole-core/src/state.rs:262-268 | Of the states a stop can leave, exactly the one between the metadata and the manifest record does not hold the offer's own records, and it does so for no manifest |
| `FolderPrepare.RecordFolder` | rust/crates/inkhole-core/src/state.rs:262-267 | As many of its calls take effect, in order, as the process still makes: staging directory, manifest, metadata, manifest |
| `FolderPrepare.StopBetweenRecords` | rust/crates/inkhole-core/src/state.rs:265-266 | A process that makes just that many calls stops between the two records, and no manifest is accepted afterwards |
| `FolderCommit.MakeDirectories` | rust/crates/inkhole-core/src/state.rs:744-761 | All listed directories are there afterwards and nothing that was there has changed |
| `FolderCommit.StagedSource` | rust/crates/inkhole-core/src/state.rs:400-401 | All files complete and all directories made, the staging directory is the source tree |
| `FolderCommit.CompleteStaging` | rust/crates/inkhole-core/src/state.rs:399-402 | Only a tree that matches the manifest goes on; one staged from an unchanged source always does, and is the source |
| `FolderCommit.RenameStaging` | rust/crates/inkhole-core/src/state.rs:428-431 | The staging directory is renamed only to a name that does not exist, and nothing else changes |
| `FolderCommit.CommitStaged` | rust/crates/inkhole-core/src/state.rs:404-454 | At most one rename, of a tree that matched the manifest, to a recorded name; on success the destination was checked in the call; until the rename the recorded name stays free and no record is lost |
| `FolderCommit.StopAfterFolderCommit` | rust/crates/inkhole-core/src/state.rs:424-429 | A process that makes just that many calls stops with the destination on record and nothing there |
| `FolderSession.FolderCommitKeeps` | rust/crates/inkhole-core/src/state.rs:404-454 | Wherever the commit stops, the records stay consistent and what is still staged is unchanged |
| `FolderSession.FinishFolder` | rust/crates/inkhole-core/src/transport.rs:1146-1219 | From an unchanged source what is renamed is the source tree, and what remains staged is the source's wherever it stops; the whole wire always gets there unless stopped or out of names |
| `FolderSession.HonestCheckpoint` | rust/crates/inkhole-core/src/transport.rs:1129-1149 | The sender accepts the checkpoint, and what it sends from there is what the receiver still needs |
| `FolderSession.ReceiveFolder` | rust/crates/inkhole-core/src/transport.rs:1095-1239 | A whole folder session: at most one rename, of a tree matching the manifest, the source itself if that is unchanged; another offer or manifest, also one of which only metadata is on record, changes nothing; an intact recorded destination is completed with; anything else there is refused and nothing changes; the whole stream, with nobody else at its names, lands at the first free one, and metadata without its manifest is refused for lack of it; the calls it makes are bounded by the bytes, the entries and the names taken |
| `FolderSession.ReplySize` | rust/crates/inkhole-core/src/transport.rs:693-754 | An unchanged source never sends more than the declared size |
| `Runs.ReceiveFilePayload` | rust/crates/inkhole-core/src/transport.rs:989-1081 | A file session keeps what is settled settled and succeeds for it unless stopped, creates at most one destination, keeps everything resumable a beginning of its source, keeps a target on track, and changes nothing when its offer is not the one on record or something else is at the recorded destination |
| `Runs.ReceiveFolderPayload` | rust/crates/inkhole-core/src/transport.rs:1095-1239 | A folder session does the same for folders |
| `Runs.ReceivePayload` | rust/crates/inkhole-core/src/transport.rs:951-1081 | Either kind of session, also of another offer: once the target has the transfer id, nothing but its own sessions changes anything; a whole session of the target with as many calls as it needs is not stopped; with something else at a recorded destination, nothing gets anywhere |
| `Runs.BlockedRefuses` | rust/crates/inkhole-core/src/state.rs:531-537 | With something else at the recorded destination, every offer under the id is refused, the recorded one and any other |
| `Runs.ClaimedRefuses` | rust/crates/inkhole-core/src/state.rs:178-203 | While a target has metadata, a commit record or its data on record, every other offer under the id is refused |
| `Runs.FileOnTrack` | rust/crates/inkhole-core/src/state.rs:168-223 | On track, a file offer is resumable or its intact destination is on record |
| `Runs.FolderOnTrack` | rust/crates/inkhole-core/src/state.rs:225-333 | On track, a folder offer is resumable, or left with metadata but no manifest, or its intact destination is on record |
| `Runs.ContinuesOn` | rust/crates/inkhole-core/src/transport.rs:951-1081 | Whatever a session on the way to a target did, what it leaves can be continued; with its whole stream and unless stopped it is complete, or all names are taken, or the metadata record lacks its manifest |
| `Runs.SettledFile` | rust/crates/inkhole-core/src/state.rs:178-191 | A settled transfer is found again by its own offer and is another's for every other |
| `Runs.RunSession` | rust/crates/inkhole-core/src/transport.rs:951-1081 | The same after any pruning of sidecar files, for any stop and any interference; with the records kept, one home, one creation, and no acceptable session of what is at home fails unless stopped |
| `Runs.RunSessions` | rust/crates/inkhole-core/src/transport.rs:951-1081 | Over any number of sessions with stops, cuts, pruning, other offers and other people's changes: every receipt is for a destination checked in its own session; while commit and done records are kept, everything that ends at names nobody else touches ends at one name, for one offer, with one rename, and from then on every acceptable session of the transfer at home that is not stopped; after any sessions of one unchanged source, with other offers in between once the source has the transfer id, a last one of the source with the whole stream leaves it at its destination, unless it made fewer calls than the bound, all names were taken or a folder's metadata was left without its manifest; and from something else at a recorded destination, every session fails and nothing is created until the record is pruned |
| `Runs.NameTaken` | rust/crates/inkhole-core/src/state.rs:494-537 | A file transfer that stops after its commit record, and whose name is then taken by something else: all its records and data are there, and every session under its id fails until the record is pruned |
| `Runs.FolderNameTaken` | rust/crates/inkhole-core/src/state.rs:424-454 | The same for a folder |
| `Runs.MoreTaken` | rust/crates/inkhole-core/src/state.rs:633-647 | A session leaves no fewer of its names taken than before, so the bound on its calls holds with the names taken in the end |
| `Runs.PrunedSettled` | rust/crates/inkhole-core/src/state.rs:927-954 | Pruning that spares commit and done records unsettles nothing |
| `Runs.PrunedContinues` | rust/crates/inkhole-core/src/state.rs:927-954 | Whatever sidecar files are pruned, what is left of a transfer on its way can be continued |
| `Runs.PrunedClaimed` | rust/crates/inkhole-core/src/state.rs:927-954 | Pruning that spares metadata, commit and done records leaves the transfer id with the target |
| `Runs.PrunedBlocked` | rust/crates/inkhole-core/src/state.rs:927-954 | Pruning that spares commit and done records does not help a blocked transfer |
| `Runs.FreshContinues` | rust/crates/inkhole-core/src/state.rs:168-223 | A transfer nothing is known of yet is on its way |
| `Sender.SendFile` | rust/crates/inkhole-core/src/transport.rs:526-596 | The stream ends well exactly when the file still has the declared size (or everything was there and it did not grow); what was written is always a beginning of what follows the offset |
| `Sender.SendBytes` | rust/crates/inkhole-core/src/transport.rs:559-585 | Whatever the read sizes, the bytes from the offset up to the declared size, in order; progress only grows |
| `Sender.SendFolder` | rust/crates/inkhole-core/src/transport.rs:634-754 | It ends well exactly when the checkpoint is consistent and no file from it on changed its size; what was written is always a beginning of the one concatenated stream |
| `Sender.StreamIsWire` | rust/crates/inkhole-core/src/transport.rs:693-754 | What an unchanged source sends is the wire the receiver cuts |
| `Locks.OneLockPerTransfer` | rust/crates/inkhole-core/src/state.rs:153-166 | In every interleaving at most one live lock exists per transfer id, and at most one task holds it between `prepare` and `finalize` |
| `Locks.PurgeOk` | rust/crates/inkhole-core/src/state.rs:156 | Purging dead entries never removes a lock that somebody keeps alive |
| `Locks.LookUpOk` | rust/crates/inkhole-core/src/state.rs:157-163 | A new lock is made only when nobody keeps one of that id alive |
| `Locks.StateNamesDistinct` | rust/crates/inkhole-core/src/state.rs:663-676 | Transfers whose ids hold no dot share none of their sidecar files |
| `Locks.SharedUpToCase` | rust/crates/inkhole-core/src/state.rs:663-676 | Where a file system ignores case, two transfers share a sidecar file exactly if their ids differ in case only, and then each has a lock of its own |
| `CommitLock.NeverReplacedInStore` | rust/crates/inkhole-core/src/state.rs:404-431 | Over every interleaving of the transfers of a store, with stops at any point, lost records and other people's changes to other names: what one transfer has put at a destination, no other replaces |
| `CommitLock.NeverReplaced` | rust/crates/inkhole-core/src/state.rs:476-501 | The same from any consistent state |
| `CommitLock.AlwaysOk` | rust/crates/inkhole-core/src/state.rs:404-431 | At most one transfer is between its commit record and its rename, and where it is about to rename there is nothing another transfer put there |
| `CommitLock.GoOk` | rust/crates/inkhole-core/src/state.rs:476-523 | Every call of the lock's holder keeps that, wherever it is in `finalize` |
| `CommitLock.ReplacedWithoutLock` | rust/crates/inkhole-core/src/state.rs:404-431 | Without the lock, two transfers find the same name free and the second rename replaces the first |
| `CommitLock.NameNotReserved` | rust/crates/inkhole-core/src/state.rs:476-501 | With it, a transfer that stops after its commit record can still lose its name to another one that records the same name |
| `EventQueue.Queue.Emit` | rust/crates/inkhole-core/src/service.rs:93-137 | Critical events are always queued; progress is refused from 128 items on; a snapshot takes the place of its stream's queued one, or that of the first progress or older snapshot, and is refused only by 1024 or more critical events; the queue invariant (lossless, newest, forwards, bounded) is kept |
| `EventQueue.Queue.MakeRoom` | rust/crates/inkhole-core/src/service.rs:111-130 | Room is made by dropping the first progress, then the first snapshot, never a critical event |
| `EventQueue.Queue.TryPop` | rust/crates/inkhole-core/src/service.rs:139-145 | The front item comes out, closed or not, and the invariant is kept |
| `EventQueue.Queue.Close` | rust/crates/inkhole-core/src/service.rs:184-189 | What was queued before stays queued |
| `EventQueue.PushLossless` | rust/crates/inkhole-core/src/service.rs:134 | Since the last `clear`, critical events delivered and queued are exactly those emitted, each once, in order, also after a push |
| `EventQueue.RemoveLossless` | rust/crates/inkhole-core/src/service.rs:117-126 | Dropping progress or a snapshot loses no critical event |
| `EventQueue.ReplaceOrder` | rust/crates/inkhole-core/src/service.rs:98-109 | After replacing in place, the queued snapshot is still the newest of its stream, the only one, and ahead of every delivered one |
| `EventQueue.PopOrder` | rust/crates/inkhole-core/src/service.rs:139-145 | Delivered snapshots of one stream never go backwards |
| `EventQueue.CountWithout` | rust/crates/inkhole-core/src/service.rs:111-130 | Taking an item out lowers the counts that bound the queue by exactly that item |
| `Wakeups.NoLostWakeup` | rust/crates/inkhole-core/src/service.rs:147-189 | In every interleaving of consumers, emitters, timeouts and `close`, a consumer that sleeps on when all else is done does so over an empty, open queue |
| `Wakeups.AwakeAlways` | rust/crates/inkhole-core/src/service.rs:147-189 | While somebody waits, every queued item is matched by something still on its way to a consumer |
| `Discovery.PeerTable.Turn` | rust/crates/inkhole-core/src/discovery.rs:621-695 | After every turn of the loop the table is the specified one and the published list its sorted projection; identities never change; a record goes only with a failing probe of its own after enough failures under its own fingerprint |
| `Discovery.PeerTable.ApplyProbeOutcome` | rust/crates/inkhole-core/src/discovery.rs:949-1061 | It returns true exactly when the projection of the table changed; at most 256 records, keyed by instance id, with sorted distinct hosts containing the current one |
| `Discovery.PeerTable.ApplyVerified` | rust/crates/inkhole-core/src/discovery.rs:955-1001 | A known record is refreshed exactly under the identity it was verified with, a new one entered exactly below 256 |
| `Discovery.PeerTable.ApplyFailure` | rust/crates/inkhole-core/src/discovery.rs:1003-1059 | A failing probe counts exactly if it concerns a record, under its fingerprint and at an address it has; at most that record is removed, and only when each of its hosts at its port had failed often enough |
| `Discovery.VerifiedHeals` | rust/crates/inkhole-core/src/discovery.rs:955-1001 | An accepted success forgives its address's failures and any goodbye, makes that address the current one, and costs the record no other address |
| `Discovery.EvictsExactly` | rust/crates/inkhole-core/src/discovery.rs:1003-1059 | Exactly a failing probe that concerns the record and brings the last of its addresses to the threshold removes it |
| `Discovery.PeerTable.DemoteGoodbye` | rust/crates/inkhole-core/src/discovery.rs:1085-1102 | A goodbye is heard exactly from one of the record's own addresses under its fingerprint and port; it shows nothing different, removes nothing, and asks for a probe of every address |
| `Discovery.PeerTable.Prune` | rust/crates/inkhole-core/src/discovery.rs:676-679 | Exactly the stale records go, and a change is reported exactly when there is one |
| `Discovery.PeerTable.Publish` | rust/crates/inkhole-core/src/discovery.rs:1104-1123 | The published list is the table's peers in strict order |
| `Discovery.Survive` | rust/crates/inkhole-core/src/discovery.rs:1003-1102 | A peer with one address that has not failed since it was last verified survives any sequence of goodbyes, of successes of others, and of failures of its other addresses or, under any other fingerprint, of that very address |
| `Discovery.SparedStays` | rust/crates/inkhole-core/src/discovery.rs:1018-1059 | One probe outcome that is no failure of the address under the record's fingerprint leaves the record and that address unfailed |
| `Discovery.VerifiedSpares` | rust/crates/inkhole-core/src/discovery.rs:955-1001 | Nor does a success of another instance, or of this one at that address |
| `Discovery.EveryHostReallyFailed` | rust/crates/inkhole-core/src/discovery.rs:1018-1054 | Counters at the threshold mean that many failures under the record's own fingerprint since each address was last verified |
| `Discovery.SnapshotUnique` | rust/crates/inkhole-core/src/discovery.rs:1109-1118 | A table has one snapshot, whatever order its records come in |
| `Discovery.InsertSorted` | rust/crates/inkhole-core/src/discovery.rs:965-968 | Adding a host keeps the hosts sorted and distinct |
| `Discovery.ProbeTracker.ScheduleProbe` | rust/crates/inkhole-core/src/discovery.rs:897-947 | At most 16 probes; a key is pending exactly while one task probes it |
| `Discovery.ProbeTracker.JoinNext` | rust/crates/inkhole-core/src/discovery.rs:621-657 | A task that ends, with an outcome or without, releases exactly its own key |
| `Discovery.ProbeTracker.PruneAttempts` | rust/crates/inkhole-core/src/discovery.rs:680-682 | Exactly the attempts that are too old are forgotten, and nothing in flight changes |
| `Tunnel.WholeRecord` | rust/crates/inkhole-core/src/wormhole/tunnel.rs:439-461 | A whole record is read as its payload under its own number and stops the reader under any other |
| `Tunnel.CutRecord` | rust/crates/inkhole-core/src/wormhole/tunnel.rs:439-461 | A record cut anywhere ends the stream |
| `Tunnel.RecordsFrame` | rust/crates/inkhole-core/src/wormhole/tunnel.rs:395-461 | The record format is a framing in the sense the stream theorems need |
| `Tunnel.ReadsBack` | rust/crates/inkhole-core/src/wormhole/tunnel.rs:386-461 | Reading the written stream gives exactly the written payloads |
| `Tunnel.CutStream` | rust/crates/inkhole-core/src/wormhole/tunnel.rs:430-461 | Cut anywhere, the stream yields exactly the payloads whose records were complete |
| `Tunnel.ShuffledPrefix` | rust/crates/inkhole-core/src/wormhole/tunnel.rs:446-455 | For any rearrangement, repetition or omission of whole records the reader's output is a prefix of the payloads |
| `Tunnel.NonceExact` | rust/crates/inkhole-core/src/wormhole/tunnel.rs:399-401 | Different counters make different nonces, and only the expected one passes the reader's test |
| `Tunnel.RecordWriter.WriteRecord` | rust/crates/inkhole-core/src/wormhole/tunnel.rs:395-416 | Records are numbered from 0 without a repeat; every legal payload fits the record limit |
| `Tunnel.WriteQueue.Offer` | rust/crates/inkhole-core/src/wormhole/tunnel.rs:295-299 | A datagram is dropped exactly when the queue of 1024 is full or the writer task has ended |
| `Tunnel.WriteQueue.WriteBatch` | rust/crates/inkhole-core/src/wormhole/tunnel.rs:323-336 | Batches of at most 128 go out in queue order; a write that is refused ends the task, and what was written stays a selection of what was offered |
| `Tunnel.WriteQueue.End` | rust/crates/inkhole-core/src/wormhole/tunnel.rs:322-337 | When the task ends, exactly what it has written counts as taken |
| `Tunnel.FarEnd` | rust/crates/inkhole-core/src/wormhole/tunnel.rs:295-339 | Whatever was dropped, whenever the writer ended and wherever the stream was cut, the far end gets an order-preserving subsequence of the datagrams |
| `Rendezvous.RendezvousClient.Dispatch` | rust/crates/inkhole-core/src/wormhole/rendezvous.rs:291-327 | Delivered and buffered messages together stay the peer's in arrival order, own messages filtered; a full buffer or a bad value ends the connection instead of losing something |
| `Rendezvous.RendezvousClient.ReadType` | rust/crates/inkhole-core/src/wormhole/rendezvous.rs:271-289 | Replies of each kind are consumed in arrival order, past any interleaving |
| `Rendezvous.RendezvousClient.SendCommands` | rust/crates/inkhole-core/src/wormhole/rendezvous.rs:236-269 | Commands are written up to the first that is too large or does not go out, and then it fails without waiting; success means one acknowledgement per command, in order, with matching ids |
| `Rendezvous.RendezvousClient.NextPeerMessage` | rust/crates/inkhole-core/src/wormhole/rendezvous.rs:175-186 | The next of the peer's messages, none lost or repeated |
| `Rendezvous.RendezvousClient.Pump` | rust/crates/inkhole-core/src/wormhole/rendezvous.rs:191-199 | Pumping buffers what comes and delivers nothing |
| `Rendezvous.TakenInTurn` | rust/crates/inkhole-core/src/wormhole/rendezvous.rs:273-281 | Taking the first reply of a kind out of the buffer disturbs the order of no kind |
| `Rendezvous.FirstOfKind` | rust/crates/inkhole-core/src/wormhole/rendezvous.rs:273-276 | The position found is the first of its kind |
| `Wormhole.Establish` | rust/crates/inkhole-core/src/wormhole/protocol.rs:149-212 | Success means key exchange, then version exchange, in this order, under the agreed key |
| `Wormhole.WormholeProtocol.Send` | rust/crates/inkhole-core/src/wormhole/protocol.rs:214-221 | The n-th value goes out under phase n |
| `Wormhole.WormholeProtocol.Receive` | rust/crates/inkhole-core/src/wormhole/protocol.rs:223-230 | If the mailbox relays in order, the n-th receive yields the n-th value the peer sent, and nothing but the connection can fail it |
| `Wormhole.RelayedAt` | rust/crates/inkhole-core/src/wormhole/protocol.rs:232-268 | What an honest side sent n-th carries phase n and opens to its value |
| `DialRace.RaceAddresses` | rust/crates/inkhole-core/src/net.rs:285-340 | Every address is dialled at most once and in order, the loop never waits with nothing in flight, the error comes only after every address was dialled and failed, and it ends for every order of events |
| `DialRace.Await` | rust/crates/inkhole-core/src/net.rs:311-338 | One wait dials the next address, finishes one in flight, or ends the race |
| `Dns.ParseDnsAnswers` | rust/crates/inkhole-core/src/net.rs:206-259 | The cursor loops compute what the packet says, never reading outside it |
| `Dns.SkipDnsName` | rust/crates/inkhole-core/src/net.rs:262-276 | The cursor only moves forwards and stays inside the packet |
| `Dns.SkipsName` | rust/crates/inkhole-core/src/net.rs:262-276 | Skipping a name of labels, compressed or not, lands exactly behind it |
| `Dns.ParsesMessage` | rust/crates/inkhole-core/src/net.rs:206-259 | A well-formed response (sections 4.1.1 to 4.1.4 of RFC 1035) yields exactly the addresses of the records of the asked type, in order |
| `Dns.ParsesRecord` | rust/crates/inkhole-core/src/net.rs:228-240 | One record yields its type, its data and the offset behind it |
| `Dns.BuildDnsQuery` | rust/crates/inkhole-core/src/net.rs:187-204 | A query is built exactly when every label has 1 to 63 bytes |
| `Dns.QuerySkipped` | rust/crates/inkhole-core/src/net.rs:187-204 | Skipping the name in a built query lands exactly on its type and class |
| `Signing.AuthenticationMessage` | rust/crates/inkhole-core/src/ssh/protocol.rs:572-582 | The loop appends the domain and every field behind its length |
| `Signing.ClientAuthMessage` | rust/crates/inkhole-core/src/ssh/protocol.rs:544-549 | What a client signs is the client domain with its three fields |
| `Signing.ServerAuthMessage` | rust/crates/inkhole-core/src/ssh/protocol.rs:551-570 | What a server signs is the server domain with its six fields |
| `Signing.TunnelKeyInput` | rust/crates/inkhole-core/src/ssh/protocol.rs:584-597 | What the tunnel key is derived from is the tunnel domain with its four fields |
| `Signing.DecodesExactly` | rust/crates/inkhole-core/src/ssh/protocol.rs:572-582 | A decoder inverts the encoding exactly when every field is shorter than 2^32 bytes |
| `Signing.MessagesUnambiguous` | rust/crates/inkhole-core/src/ssh/protocol.rs:544-605 | Client, server and tunnel messages are pairwise disjoint, and each is injective in its whole field list |
| `Signing.ServerMessageBinds` | rust/crates/inkhole-core/src/ssh/protocol.rs:551-570 | What a server signs fixes both parties, both nonces, the fingerprint and the secret |
| `Signing.LongFieldsCollide` | rust/crates/inkhole-core/src/ssh/protocol.rs:578 | One field of 2^32 zero bytes, its length wrapped, is the message of 2^30 + 1 empty fields |
| `Signing.InjectiveBelowIff` | rust/crates/inkhole-core/src/ssh/protocol.rs:572-582 | The encoding is injective on fields shorter than a bound exactly if the bound is at most 2^32 |
| `Disk.Workspace.Call` | rust/crates/inkhole-core/src/state.rs:168-223 | One file system call: somebody else may change a destination first, and the process may stop instead of making it |
| `Disk.Workspace.Prune` | rust/crates/inkhole-core/src/state.rs:927-954 | Removing any of the sidecar files, a staging directory perhaps only in part, leaves consistent records and bound bytes |

## Left out

- One `Workspace` is one transfer id under one inbox root: category roots are not modelled, and other ids meet it only as other people's changes to destination names (`Locks.StateNamesDistinct` keeps their sidecar files apart, where case is not ignored). `CommitLock` puts the transfers of one store side by side, with where they are instead of what they write. A second `TransferStore` on the same inbox has its own locks and is not modelled.
- `atomic_write_json` is one step: its temporary file and the unlink-then-rename fallback are not modelled; each record is written only when absent. JSON that does not parse is not modelled.
- Reading and hashing a file is one step; its size and digest are looked at in two. A directory's listing is as it was when the directory was opened. The sender's tree is still while it is scanned, so "changed while scanning" errors do not occur.
- Setting modification times is a call without an effect, one for all the items of a folder. Non-UTF-8 names and symbolic links beyond "not a regular file or directory" are not modelled.
- `Path::file_name` is modelled as a test for a plain component; Windows path comparison is not modelled. Rust's string order is code point order here, as it is for UTF-8.
- The loops over the files of a folder are written as recursion on the file index (`FolderTransfer.TakeCheckpoint`, `FolderReceive.ReceiveFolderFiles`), and the waiting loops of the rendezvous client as recursion on what is left to read; each turn is the source's.
- The `writers` of partial data are bookkeeping of the model, to say under which offer bytes were written.
- Folder progress events are not modelled; file progress is.
- Timers, intervals and time-outs are steps that may happen at any point; ages are numbers given from outside. Cancellation is a stop. A write that the runtime still has in flight when a handler is cancelled or fails to read is over at once in the model (`FileTransfer.Append`, `FolderStaging.AppendFile`); it could otherwise land after the next session has read the part's length.
- QUIC, TLS, SSH, mDNS, WebSocket and socket code appear only as streams or message sequences that may end at any point. Which IP address a host text stands for is not modelled: hosts are canonical addresses.
- The opening of a mailbox (allocate, claim, open, close), code words, transit hints and the SSH pairing handshake are not modelled; neither are session registries, JSON method dispatch, identity files, inbox categories and the user interface.
- The check of a peer's probe response is an input of `Discovery` (a verified peer, a failure or a cancellation).
- Runs.RunSessions: one destination per offer is claimed only for names nobody else touches and while commit and done records are not pruned, because the code decides by those records.
- Runs.RunSessions: other offers may come in between only once the target has metadata, a commit record or its data on record, because until then another offer can take the transfer id.
- Runs.RunSessions: at names that others may touch, only soundness of receipts and the bytes kept are claimed; what is at such a name when a session looks decides, and that is theirs.
- Wormhole.WormholeProtocol.Receive: the order of messages is claimed for a mailbox that relays in order, because the server is not part of the code.

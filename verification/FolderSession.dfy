// One receiving session for a folder.
module FolderSession {
  import opened Wrappers
  import opened Text
  import opened Names
  import opened Manifest
  import opened FolderTree
  import opened FolderScan
  import opened Offers
  import opened Disk
  import opened FileTransfer
  import opened FileCommit
  import opened FolderStaging
  import opened FolderReceive
  import opened FolderTransfer
  import opened FolderPrepare
  import opened FolderCommit

  lemma FolderConcludeKeeps(before: Sidecars, expected: StoredOffer, m: FolderManifest, name: string, after: Sidecars)
    requires SidecarsOk(before) && before.done.None? && ValidDestinationName(name) && expected.kind.FolderKind?
    requires before.commit == Some(FolderCommitFor(expected, m, name))
             && FolderConcludeReaches(before, expected, m, name, after)
    ensures FolderKept(before, after, expected) && after.staging == before.staging
    ensures after.metadata.Some? ==> after.metadata == before.metadata
    ensures after.metadata.Some? && after.manifest.Some? ==> after.manifest == before.manifest
  {
    var s1 := before.(done := Some(FolderDoneFor(expected, m, name)));
    assert RecordsOk(s1) && Bound(s1);
    var s3 := s1.(metadata := None, manifest := None);
    assert RecordsOk(s3) && Bound(s3);
    if after != before && after != s1 && after != s1.(metadata := None) && after != s3 {
      assert after == s3.(commit := None);
    }
  }

  // After `finalize_folder`, wherever it stopped: consistent records and nothing staged that was not.
  lemma FolderCommitKeeps(before: Sidecars, expected: StoredOffer, m: FolderManifest, name: string, after: Sidecars)
    requires SidecarsOk(before) && before.done.None? && ValidDestinationName(name) && expected.kind.FolderKind?
    requires before.metadata == Some(expected) && before.manifest == Some(m)
    requires FolderCommitReaches(before, expected, m, name, after)
    ensures FolderKept(before, after, expected)
    ensures after.staging.Some? ==> after.staging == before.staging
    ensures after.metadata.Some? && after.manifest.Some? ==> after.manifest == Some(m)
  {
    if after != before {
      var committed := before.(commit := Some(FolderCommitFor(expected, m, name)));
      if FolderConcludeReaches(committed, expected, m, name, after) {
        FolderConcludeKeeps(committed, expected, m, name, after);
      } else {
        FolderConcludeKeeps(committed.(staging := None), expected, m, name, after);
      }
    }
  }

  lemma FolderKeptOn(a: Sidecars, b: Sidecars, c: Sidecars, expected: StoredOffer)
    requires FolderKept(a, b, expected) && FolderKept(b, c, expected)
    ensures FolderKept(a, c, expected)
  {
  }

  // What remains staged is the source's.
  ghost predicate StagedFrom(own: Sidecars, source: Tree) {
    own.staging.Some? ==> Partial(TreeOf(own), source)
  }

  // The manifest lists the source, and the stream continues from the checkpoint as the source does.
  ghost predicate OnCourse(t: Tree, m: FolderManifest, at: Checkpoint, incoming: seq<byte>, source: FsTree,
                           digest: Digest, times: Times) {
    && Lists(m.entries, source, digest, times)
    && HonestRest(t, source, FileEntries(m.entries), at.fileIndex, at.offset, incoming, digest)
  }

  ghost function WireOf(m: FolderManifest, source: FsTree, at: Checkpoint): seq<byte> {
    Wire(FileEntries(m.entries), source, at.fileIndex, at.offset)
  }

  function FillCalls(entries: nat): nat {
    StreamCalls(entries) + DirectoryCalls(entries) + 3 * entries + 6
  }

  // The files and the directories, up to a staged tree that matches the manifest. `honest` says that
  // the stream continues an unchanged source, `whole` that it does so to the end.
  method FillStaging(disk: Workspace, expected: StoredOffer, m: FolderManifest, at: Checkpoint, incoming: seq<byte>,
                     readSize: nat -> nat, torn: nat, ghost source: FsTree, ghost times: Times, ghost honest: bool,
                     ghost whole: bool)
    returns (r: Result<(), CoreError>)
    requires WellFormed(m, disk.canon) && FolderReady(disk.own, expected, m, at, disk.digest)
    requires honest ==> OnCourse(TreeOf(disk.own), m, at, incoming, source, disk.digest, times)
    requires whole ==> honest && incoming == WireOf(m, source, at)
    modifies disk`dest, disk`budget, disk`others, disk`history, disk`own
    ensures r == Failure(Stopped) ==> disk.budget == 0
    ensures old(disk.budget) <= disk.budget + |incoming| + FillCalls(|m.entries|)
    ensures Undisturbed(disk) && Restaged(old(disk.own), disk.own, {(expected, m)})
    ensures r.Success? ==> Matches(TreeOf(disk.own), m, disk.digest)
    ensures honest ==> Partial(TreeOf(disk.own), source) && (r.Success? ==> TreeOf(disk.own) == source)
    ensures whole ==> r.Success? || r == Failure(Stopped)
  {
    FilesAmong(m.entries);
    r := ReceiveFolderFiles(disk, (expected, m), FileEntries(m.entries), at.fileIndex, at.offset, incoming, readSize,
                            torn, source);
    if r.Success? {
      r := CompleteStaging(disk, m, source, times);
    }
  }

  // The calls a session needs at most, for that many bytes and entries and with that many of its
  // names taken.
  function FolderCalls(bytes: nat, entries: nat, taken: nat): nat {
    bytes + CheckpointCalls(entries) + FillCalls(entries) + 9 * entries + taken + 41
  }

  // The rest of a session once a checkpoint is ready to be continued.
  method FinishFolder(disk: Workspace, expected: StoredOffer, m: FolderManifest, at: Checkpoint, incoming: seq<byte>,
                      readSize: nat -> nat, torn: nat, ghost source: FsTree, ghost times: Times, ghost honest: bool,
                      ghost whole: bool)
    returns (r: Result<CompletedTransfer, CoreError>, name: string, ghost moved: Option<Node>)
    requires SidecarsOk(disk.own) && disk.own.done.None? && IsSafeName(expected.filename) && expected.kind.FolderKind?
    requires WellFormed(m, disk.canon) && FolderReady(disk.own, expected, m, at, disk.digest)
    requires honest ==> OnCourse(TreeOf(disk.own), m, at, incoming, source, disk.digest, times)
    requires whole ==> honest && incoming == WireOf(m, source, at)
    modifies disk`dest, disk`budget, disk`others, disk`history, disk`own, disk`created
    ensures r == Failure(Stopped) ==> disk.budget == 0
    ensures NamesKept(disk.kept, expected.filename) ==>
      old(disk.budget) <= disk.budget + |incoming| + FillCalls(|m.entries|) + 3 * |m.entries| + 14
          + NamesTaken(old(disk.dest), expected.filename)
    ensures FolderKept(old(disk.own), disk.own, expected)
    ensures disk.own.metadata.Some? && disk.own.manifest.Some? ==> disk.own.manifest == Some(m)
    ensures old(disk.history) <= disk.history && MovedTo(old(disk.dest), disk.dest, disk.kept, name, moved)
    ensures disk.created == CreatedBy(old(disk.created), name, moved)
    ensures moved.Some? ==>
      && AsManifested(moved.value, m, disk.digest) && (honest ==> moved.value == Node.Directory(source))
      && FolderRecorded(disk.own, expected, m, name) && (name in disk.kept ==> r.Success? || r == Failure(Stopped))
    ensures r.Success? ==>
      && r.value == CompletedTransfer(ReceiptOf(expected), name)
      && FolderCompleteOk(disk.own, disk.history, |old(disk.history)|, disk.digest, expected, m, r.value)
      && (name in disk.kept ==> FolderAt(disk.dest, name, m, disk.digest))
    ensures NamesKept(disk.kept, expected.filename) && old(FolderFree(disk.own, disk.dest, disk.kept, expected, m)) ==>
      if moved.None? then
        FolderNotYetThere(disk.own, disk.dest, disk.kept, expected, m) && RecordsStay(old(disk.own), disk.own)
      else name in disk.kept
    ensures honest ==> StagedFrom(disk.own, source)
    ensures whole && NamesKept(disk.kept, expected.filename)
            && old(FolderFree(disk.own, disk.dest, disk.kept, expected, m)) ==>
      && Landed(r, old(disk.own.commit), old(disk.dest), expected.filename, name)
      && (r.Success? ==> moved.Some?)
  {
    name, moved := "", None;
    ghost var before, dest, history := disk.own, disk.dest, disk.history;
    var filled := FillStaging(disk, expected, m, at, incoming, readSize, torn, source, times, honest, whole);
    ghost var staged, stagedDest, stagedHistory := disk.own, disk.dest, disk.history;
    RestagedKeeps(before, expected, m, staged);
    FolderStaysFree(before, dest, stagedDest, disk.kept, expected, m);
    if filled.Failure? {
      r := Failure(filled.error);
    } else {
      r, name, moved := CommitStaged(disk, expected, m);
      MovedOn(dest, stagedDest, disk.dest, disk.kept, name, moved);
      FolderCheckedLater(disk.history, disk.history, |stagedHistory|, |history|, name, m, disk.digest);
      LandedBefore(r, before.commit, dest, stagedDest, disk.kept, expected.filename, name);
      SameCandidates(dest, stagedDest, disk.kept, expected.filename);
      if disk.own != staged {
        FolderCommitKeeps(staged, expected, m, name, disk.own);
      }
      FolderKeptOn(before, staged, disk.own, expected);
      HistoryOn(history, stagedHistory, disk.history);
    }
  }

  // What the sender sends from a checkpoint on, how it arrives, and what a stopped removal leaves.
  datatype FolderStream = FolderStream(
    reply: Checkpoint -> seq<byte>, readSize: nat -> nat, torn: nat, survivors: set<string>)

  // The manifest lists the source tree, and the sender sends from the checkpoint it is given, as far
  // as the stream gets.
  ghost predicate HonestFolder(stream: FolderStream, m: FolderManifest, source: FsTree, digest: Digest, times: Times) {
    && Lists(m.entries, source, digest, times)
    && forall at: Checkpoint :: SenderAccepts(FileEntries(m.entries), at) ==>
      stream.reply(at) <= WireOf(m, source, at)
  }

  ghost predicate WholeFolder(stream: FolderStream, m: FolderManifest, source: FsTree) {
    forall at: Checkpoint :: SenderAccepts(FileEntries(m.entries), at) ==>
      stream.reply(at) == WireOf(m, source, at)
  }

  lemma HonestCheckpoint(own: Sidecars, expected: StoredOffer, m: FolderManifest, at: Checkpoint, stream: FolderStream,
                         source: FsTree, canon: Canonical, digest: Digest, times: Times)
    requires WellFormed(m, canon) && HonestFolder(stream, m, source, digest, times)
    requires FolderReady(own, expected, m, at, digest) && Partial(TreeOf(own), source)
    requires FilesDone(TreeOf(own), source, FileEntries(m.entries), at.fileIndex)
    ensures SenderAccepts(FileEntries(m.entries), at)
    ensures OnCourse(TreeOf(own), m, at, stream.reply(at), source, digest, times)
  {
    ListedFilesSourced(m, source, canon, digest, times);
  }

  lemma ReplySize(stream: FolderStream, m: FolderManifest, at: Checkpoint, source: FsTree, canon: Canonical,
                  digest: Digest, times: Times)
    requires WellFormed(m, canon) && HonestFolder(stream, m, source, digest, times)
             && SenderAccepts(FileEntries(m.entries), at)
    ensures |stream.reply(at)| <= TotalSize(m.entries)
  {
    var files := FileEntries(m.entries);
    ListedFilesSourced(m, source, canon, digest, times);
    FilesTotal(m.entries);
    WireSize(files, source, at.fileIndex, at.offset, digest);
  }

  // A session that sends one of the unchanged sources for an acceptable offer.
  ghost predicate HonestOffer(disk: Workspace, offer: TransferOffer, m: FolderManifest, stream: FolderStream,
                              sources: Sources, times: Times) {
    && (Stored(offer), m) in sources
    && FolderOfferOk(disk, offer, m) && HonestFolder(stream, m, SourceOf(sources, Stored(offer), m), disk.digest, times)
  }

  // `prepare_folder`, with what the rest of the session needs to know of it.
  method StartFolder(disk: Workspace, offer: TransferOffer, m: FolderManifest, stream: FolderStream,
                     ghost sources: Sources, ghost times: Times, ghost honest: bool)
    returns (r: Result<FolderOutcome, CoreError>)
    requires SidecarsOk(disk.own)
    requires honest ==> StagingOf(disk.own, sources) && HonestOffer(disk, offer, m, stream, sources, times)
    modifies disk`dest, disk`budget, disk`others, disk`history, disk`own
    ensures r == Failure(Stopped) ==> disk.budget == 0
    ensures old(disk.budget) <= disk.budget + CheckpointCalls(|m.entries|) + 6 * |m.entries| + 27
    ensures Undisturbed(disk)
    ensures FolderKept(old(disk.own), disk.own, Stored(offer)) && ManifestKept(old(disk.own), disk.own, m)
    ensures old(StagingOf(disk.own, sources)) && (honest || (Stored(offer), m) !in sources) ==>
      StagingOf(disk.own, sources)
    ensures r.Success? ==> FolderOfferOk(disk, offer, m) && !old(OtherFolderOnRecord(disk.own, Stored(offer), m))
    ensures r.Success? && r.value.CompleteFolder? ==>
      && FolderCompleteOk(disk.own, disk.history, |old(disk.history)|, disk.digest, Stored(offer), m, r.value.completed)
      && (r.value.completed.destination in disk.kept ==>
           FolderAt(disk.dest, r.value.completed.destination, m, disk.digest))
      && !old(FolderNotYetThere(disk.own, disk.dest, disk.kept, Stored(offer), m))
      && !old(FolderOccupied(disk.own, disk.dest, disk.kept, Stored(offer), m, disk.digest))
      && (old(FolderIntact(disk.own, disk.dest, disk.kept, Stored(offer), m, disk.digest)) ==>
        Some(r.value.completed.destination) == old(FolderNameOnRecord(disk.own, Stored(offer), m)))
    ensures r.Success? && r.value.ResumeFolder? ==>
      && FolderReady(disk.own, Stored(offer), m, r.value.at, disk.digest)
      && disk.own.done.None? && disk.own.commit == old(disk.own.commit)
      && IsSafeName(Stored(offer).filename) && offer.kind.FolderKind? && WellFormed(m, disk.canon)
      && !old(FolderIntact(disk.own, disk.dest, disk.kept, Stored(offer), m, disk.digest))
      && !old(FolderOccupied(disk.own, disk.dest, disk.kept, Stored(offer), m, disk.digest))
      && !old(FolderNotYetThere(disk.own, disk.dest, disk.kept, Stored(offer), m)
              && HalfRecorded(disk.own, Stored(offer)))
      && (old(FolderNotYetThere(disk.own, disk.dest, disk.kept, Stored(offer), m)) ==>
        FolderFree(disk.own, disk.dest, disk.kept, Stored(offer), m) && RecordsStay(old(disk.own), disk.own))
      && (honest ==>
        && SenderAccepts(FileEntries(m.entries), r.value.at)
        && OnCourse(TreeOf(disk.own), m, r.value.at, stream.reply(r.value.at), SourceOf(sources, Stored(offer), m),
                    disk.digest, times))
    ensures r.Failure? ==>
      && (old(FolderOccupied(disk.own, disk.dest, disk.kept, Stored(offer), m, disk.digest)) ==>
           disk.own == old(disk.own))
      && (old(OtherFolderOnRecord(disk.own, Stored(offer), m)) ==> disk.own == old(disk.own))
      && (!FolderOfferOk(disk, offer, m) ==> disk.own == old(disk.own) && r.error == InvalidOffer)
      && (old(FolderIntact(disk.own, disk.dest, disk.kept, Stored(offer), m, disk.digest)) ==>
        && FolderRecorded(disk.own, Stored(offer), m, old(FolderNameOnRecord(disk.own, Stored(offer), m)).value)
        && (FolderOfferOk(disk, offer, m) ==> r.error == Stopped))
      && (old(FolderNotYetThere(disk.own, disk.dest, disk.kept, Stored(offer), m)) ==>
        && FolderNotYetThere(disk.own, disk.dest, disk.kept, Stored(offer), m) && RecordsStay(old(disk.own), disk.own)
        && (FolderOfferOk(disk, offer, m) && old(HalfRecorded(disk.own, Stored(offer))) ==>
          HalfRecorded(disk.own, Stored(offer)) && (r.error == ManifestMissing || r.error == Stopped))
        && (honest && old(SameFolderMetadata(disk.own, Stored(offer), m)) ==> r.error == Stopped))
  {
    ghost var source, before, dest := SourceOf(sources, Stored(offer), m), disk.own, disk.dest;
    if honest {
      ListedFilesSourced(m, source, disk.canon, disk.digest, times);
    }
    r := PrepareFolder(disk, offer, m, stream.survivors, sources);
    FolderStaysAway(disk.own, dest, disk.dest, disk.kept, Stored(offer), m);
    if r.Success? && r.value.ResumeFolder? {
      SafeFilenameIsSafe(offer.filename);
      if honest {
        HonestCheckpoint(disk.own, Stored(offer), m, r.value.at, stream, source, disk.canon, disk.digest, times);
      }
    }
  }

  // What is kept after the whole session, from what is kept after its two halves.
  lemma StillStaged(before: Sidecars, begun: Sidecars, after: Sidecars, expected: StoredOffer, m: FolderManifest,
                    sources: Sources, honest: bool)
    requires begun.metadata == Some(expected)
    requires FolderKept(before, begun, expected) && FolderKept(begun, after, expected)
    requires after.metadata.Some? && after.manifest.Some? ==> after.manifest == Some(m)
    requires honest ==> StagedFrom(after, SourceOf(sources, expected, m))
    ensures FolderKept(before, after, expected) && ManifestKept(before, after, m)
    ensures honest || (expected, m) !in sources ==> StagingOf(after, sources)
  {
  }

  method ReceiveFolder(disk: Workspace, offer: TransferOffer, m: FolderManifest, stream: FolderStream,
                       ghost sources: Sources, ghost times: Times, ghost honest: bool, ghost whole: bool)
    returns (r: Result<CompletedTransfer, CoreError>, name: string, ghost moved: Option<Node>)
    requires SidecarsOk(disk.own)
    requires honest ==> StagingOf(disk.own, sources) && HonestOffer(disk, offer, m, stream, sources, times)
    requires whole ==> honest && WholeFolder(stream, m, SourceOf(sources, Stored(offer), m))
    modifies disk`dest, disk`budget, disk`others, disk`history, disk`own, disk`created
    ensures r == Failure(Stopped) ==> disk.budget == 0
    ensures honest && NamesKept(disk.kept, SafeFilename(offer.filename)) ==>
      old(disk.budget) <= disk.budget
          + FolderCalls(offer.size, |m.entries|, NamesTaken(old(disk.dest), SafeFilename(offer.filename)))
    ensures FolderKept(old(disk.own), disk.own, Stored(offer)) && ManifestKept(old(disk.own), disk.own, m)
    ensures old(StagingOf(disk.own, sources)) && (honest || (Stored(offer), m) !in sources) ==>
      StagingOf(disk.own, sources)
    ensures old(disk.history) <= disk.history && MovedTo(old(disk.dest), disk.dest, disk.kept, name, moved)
    ensures disk.created == CreatedBy(old(disk.created), name, moved)
    ensures moved.Some? ==>
      && AsManifested(moved.value, m, disk.digest)
      && (honest ==> moved.value == Node.Directory(SourceOf(sources, Stored(offer), m)))
      && FolderRecorded(disk.own, Stored(offer), m, name) && (name in disk.kept ==> r.Success? || r == Failure(Stopped))
    ensures r.Success? ==>
      && r.value.destination == name
      && FolderCompleteOk(disk.own, disk.history, |old(disk.history)|, disk.digest, Stored(offer), m, r.value)
      && (name in disk.kept ==> FolderAt(disk.dest, name, m, disk.digest))
    // Another offer or manifest under the same id changes nothing, nor does an unacceptable offer.
    ensures old(OtherFolderOnRecord(disk.own, Stored(offer), m)) || !FolderOfferOk(disk, offer, m) ==>
      disk.own == old(disk.own) && moved.None? && r.Failure?
    // A destination on record that nobody touched is completed with, and nothing else is created.
    ensures old(FolderIntact(disk.own, disk.dest, disk.kept, Stored(offer), m, disk.digest)) ==>
      var record := old(FolderNameOnRecord(disk.own, Stored(offer), m)).value;
      && moved.None? && FolderRecorded(disk.own, Stored(offer), m, record)
      && (if r.Success? then name == record else FolderOfferOk(disk, offer, m) ==> r.error == Stopped)
    // Something else at a destination on record is refused, and nothing changes.
    ensures old(FolderOccupied(disk.own, disk.dest, disk.kept, Stored(offer), m, disk.digest)) ==>
      disk.own == old(disk.own) && moved.None? && r.Failure?
    // Until something is renamed, no other destination is recorded, the recorded one stays free, and
    // nothing on record is lost.
    ensures old(FolderNotYetThere(disk.own, disk.dest, disk.kept, Stored(offer), m))
            && NamesKept(disk.kept, SafeFilename(offer.filename)) ==>
      if moved.None? then
        FolderNotYetThere(disk.own, disk.dest, disk.kept, Stored(offer), m) && RecordsStay(old(disk.own), disk.own)
      else name in disk.kept
    // A metadata record without its manifest is refused for lack of it; otherwise the whole stream
    // of an unchanged source, with nobody else at its names and unstopped, always gets there.
    ensures old(FolderNotYetThere(disk.own, disk.dest, disk.kept, Stored(offer), m)) && FolderOfferOk(disk, offer, m)
            && old(HalfRecorded(disk.own, Stored(offer))) ==>
      HalfRecorded(disk.own, Stored(offer)) && (r == Failure(ManifestMissing) || r == Failure(Stopped))
    ensures whole && NamesKept(disk.kept, SafeFilename(offer.filename))
            && old(FolderResumable(disk.own, disk.dest, disk.kept, Stored(offer), m)) ==>
      && Landed(r, old(disk.own.commit), old(disk.dest), SafeFilename(offer.filename), name)
      && (r.Success? ==> moved.Some?)
  {
    name, moved := "", None;
    ghost var before, dest, history := disk.own, disk.dest, disk.history;
    var started := StartFolder(disk, offer, m, stream, sources, times, honest);
    ghost var begun, begunDest, begunHistory := disk.own, disk.dest, disk.history;
    if started.Failure? {
      r := Failure(started.error);
    } else if started.value.CompleteFolder? {
      r, name := Success(started.value.completed), started.value.completed.destination;
    } else {
      var at := started.value.at;
      ghost var source := SourceOf(sources, Stored(offer), m);
      assert whole ==> stream.reply(at) == WireOf(m, source, at);
      if honest {
        ReplySize(stream, m, at, source, disk.canon, disk.digest, times);
      }
      r, name, moved := FinishFolder(disk, Stored(offer), m, at, stream.reply(at), stream.readSize, stream.torn,
                                     source, times, honest, whole);
      StillStaged(before, begun, disk.own, Stored(offer), m, sources, honest);
      FolderCheckedLater(disk.history, disk.history, |begunHistory|, |history|, name, m, disk.digest);
      LandedBefore(r, begun.commit, dest, begunDest, disk.kept, Stored(offer).filename, name);
      SameCandidates(dest, begunDest, disk.kept, Stored(offer).filename);
      HistoryOn(history, begunHistory, disk.history);
      MovedOn(dest, begunDest, disk.dest, disk.kept, name, moved);
    }
  }
}

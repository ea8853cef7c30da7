// Replaying, recovering or resuming a folder transfer.
module FolderPrepare {
  import opened Wrappers
  import opened Names
  import opened Manifest
  import opened FolderTree
  import opened Offers
  import opened Disk
  import opened FolderCheck
  import opened FileTransfer
  import opened FolderStaging
  import opened FolderReceive
  import opened FolderTransfer

  function FolderCommitFor(offer: StoredOffer, m: FolderManifest, name: string): CommitRecord {
    CommitRecord(offer, name, Some(m))
  }

  function FolderDoneFor(offer: StoredOffer, m: FolderManifest, name: string): DoneRecord {
    DoneRecord(offer, name, ReceiptOf(offer), Some(m))
  }

  ghost predicate FolderRecorded(own: Sidecars, offer: StoredOffer, m: FolderManifest, name: string) {
    || own.done == Some(FolderDoneFor(offer, m, name))
    || (own.done == None && own.commit == Some(FolderCommitFor(offer, m, name)))
  }

  ghost predicate FolderAt(dest: Destinations, name: string, m: FolderManifest, digest: Digest) {
    name in dest && dest[name].Directory? && Matches(dest[name].tree, m, digest)
  }

  // ---------- destinations ----------

  function EntryCount(m: Option<FolderManifest>): nat {
    if m.Some? then |m.value.entries| else 0
  }

  // The opening shared by `validate_completed_folder` and `recover_folder_commit`.
  method CheckFolderDestination(disk: Workspace, name: string, m: FolderManifest) returns (r: Result<bool, CoreError>)
    modifies disk`dest, disk`budget, disk`others, disk`history
    ensures r == Failure(Stopped) ==> disk.budget == 0
    ensures old(disk.budget) <= disk.budget + 3 * |m.entries| + 5
    ensures Undisturbed(disk)
    ensures r == Success(true) ==>
      && FolderChecked(disk.history, |old(disk.history)|, name, m, disk.digest)
      && (name in disk.kept ==> FolderAt(disk.dest, name, m, disk.digest))
    ensures ValidDestinationName(name) && name in disk.kept && r != Failure(Stopped) ==>
      && (r == Success(true) <==> WellFormed(m, disk.canon) && FolderAt(old(disk.dest), name, m, disk.digest))
      && (r == Success(false) <==> name !in old(disk.dest))
  {
    if !ValidDestinationName(name) {
      r := Failure(BadDestination);
    } else {
      var found := disk.Call(); // try_exists
      if found.Failure? {
        r := Failure(found.error);
      } else if name !in disk.dest {
        r := Success(false);
      } else {
        ghost var from := |disk.history|;
        var matched := ValidateContents(disk, At(name), m);
        FolderCheckedLater(disk.history, disk.history, from, |old(disk.history)|, name, m, disk.digest);
        r := if matched.Success? then Success(true) else Failure(matched.error);
      }
    }
  }

  lemma FolderCheckedLater(h: seq<Destinations>, later: seq<Destinations>, from: nat, since: nat, name: string,
                           m: FolderManifest, digest: Digest)
    requires h <= later && since <= from
    ensures FolderChecked(h, from, name, m, digest) ==> FolderChecked(later, since, name, m, digest)
  {
    if FolderChecked(h, from, name, m, digest) {
      var i :| from <= i < |h| && name in h[i] && h[i][name].Directory?;
      assert later[i] == h[i];
      forall k | 0 <= k < |m.entries| ensures EntryChecked(later, since, name, m.entries[k], digest) {
        EntryCheckedLater(h, later, from, name, m.entries[k], digest);
      }
    }
  }

  // ---------- removing the staging directory ----------

  // What is left of it once a removal has begun.
  ghost predicate Shrunk(before: Sidecars, after: Sidecars) {
    || after == before
    || after == before.(staging := None)
    || (before.staging.Some? && after.staging.Some? && after == before.(staging := after.staging)
        && after.staging.value.writers == before.staging.value.writers && TreeOf(after).Keys <= TreeOf(before).Keys
        && forall p :: p in TreeOf(after) ==> TreeOf(after)[p] == TreeOf(before)[p])
  }

  function RemovalCalls(own: Sidecars): nat {
    if own.staging.Some? then 2 else 1
  }

  method RemoveStaging(disk: Workspace, survivors: set<string>) returns (r: Result<(), CoreError>)
    modifies disk`dest, disk`budget, disk`others, disk`history, disk`own
    ensures r == Failure(Stopped) ==> disk.budget == 0
    ensures old(disk.budget) <= disk.budget + 2
    ensures Undisturbed(disk) && Shrunk(old(disk.own), disk.own)
    ensures r.Success? ==> disk.own == old(disk.own).(staging := None)
    ensures r.Failure? ==> r.error == Stopped
    ensures r.Success? <==> RemovalCalls(old(disk.own)) <= old(disk.budget)
    ensures r.Success? ==> disk.budget == old(disk.budget) - RemovalCalls(old(disk.own))
  {
    r := disk.Call(); // symlink_metadata
    if r.Success? && disk.own.staging.Some? {
      r := disk.Call(); // remove_dir_all
      disk.own := if r.Success? then disk.own.(staging := None)
                  else WithTree(disk.own, Within(TreeOf(disk.own), survivors));
    }
  }

  // ---------- recovering a commit ----------

  // The states `recover_folder_commit` passes through.
  ghost predicate FolderRecoverReaches(before: Sidecars, offer: StoredOffer, m: FolderManifest, name: string,
                                       after: Sidecars) {
    var s1 := before.(done := Some(FolderDoneFor(offer, m, name)));
    var s2 := s1.(staging := None);
    var s3 := s2.(metadata := None);
    after == before || Shrunk(s1, after) || after == s3 || after == s3.(manifest := None)
    || after == FolderRecovered(before, offer, m, name)
  }

  function FolderRecovered(before: Sidecars, offer: StoredOffer, m: FolderManifest, name: string): Sidecars {
    before.(done := Some(FolderDoneFor(offer, m, name)), staging := None, metadata := None, manifest := None,
            commit := None)
  }

  method RecordRecoveredFolder(disk: Workspace, offer: StoredOffer, m: FolderManifest, name: string,
                               survivors: set<string>)
    returns (r: Result<(), CoreError>)
    modifies disk`dest, disk`budget, disk`others, disk`history, disk`own
    ensures r == Failure(Stopped) ==> disk.budget == 0
    ensures old(disk.budget) <= disk.budget + 6
    ensures Undisturbed(disk)
    ensures FolderRecoverReaches(old(disk.own), offer, m, name, disk.own)
    ensures r.Success? ==> disk.own == FolderRecovered(old(disk.own), offer, m, name)
    ensures r.Failure? ==> r.error == Stopped
  {
    r := disk.Update([disk.own.(done := Some(DoneRecord(offer, name, ReceiptOf(offer), Some(m))))]);
    if r.Success? {
      r := RemoveStaging(disk, survivors);
      if r.Success? {
        var metadataGone := disk.own.(metadata := None);
        var manifestGone := metadataGone.(manifest := None);
        r := disk.Update([metadataGone, manifestGone, manifestGone.(commit := None)]);
      }
    }
  }

  method RecoverFolderCommit(disk: Workspace, commit: CommitRecord, survivors: set<string>)
    returns (r: Result<Option<CompletedTransfer>, CoreError>)
    requires disk.own.commit == Some(commit)
    modifies disk`dest, disk`budget, disk`others, disk`history, disk`own
    ensures r == Failure(Stopped) ==> disk.budget == 0
    ensures old(disk.budget) <= disk.budget + 3 * EntryCount(commit.manifest) + 11
    ensures Undisturbed(disk)
    ensures disk.own == old(disk.own)
         || (commit.manifest.Some?
             && FolderRecoverReaches(old(disk.own), commit.offer, commit.manifest.value, commit.destination, disk.own))
    ensures r.Success? && r.value.Some? ==>
      && commit.manifest.Some?
      && r.value.value == CompletedTransfer(ReceiptOf(commit.offer), commit.destination)
      && disk.own == FolderRecovered(old(disk.own), commit.offer, commit.manifest.value, commit.destination)
      && FolderChecked(disk.history, |old(disk.history)|, commit.destination, commit.manifest.value, disk.digest)
      && (commit.destination in disk.kept ==>
           FolderAt(disk.dest, commit.destination, commit.manifest.value, disk.digest))
    ensures r == Success(None) ==> disk.own == old(disk.own)
    // A matching destination is completed with, a free one is left to be taken, and anything else refused.
    ensures ValidDestinationName(commit.destination) && commit.destination in disk.kept && commit.manifest.Some? ==>
      var m := commit.manifest.value;
      var intact := WellFormed(m, disk.canon) && FolderAt(old(disk.dest), commit.destination, m, disk.digest);
      && (r != Failure(Stopped) ==>
        (r.Success? && r.value.Some? <==> intact) && (r == Success(None) <==> commit.destination !in old(disk.dest)))
      && (!intact ==> disk.own == old(disk.own))
  {
    var name := commit.destination;
    if !ValidDestinationName(name) {
      r := Failure(BadDestination);
    } else if commit.manifest.None? {
      r := Failure(ManifestMissing);
    } else {
      var m := commit.manifest.value;
      var present := CheckFolderDestination(disk, name, m);
      if present.Failure? {
        r := Failure(present.error);
      } else if !present.value {
        r := Success(None);
      } else {
        ghost var checked := disk.history;
        var recorded := RecordRecoveredFolder(disk, commit.offer, m, name, survivors);
        FolderCheckedLater(checked, disk.history, |old(disk.history)|, |old(disk.history)|, name, m, disk.digest);
        r := if recorded.Success? then Success(Some(CompletedTransfer(ReceiptOf(commit.offer), name)))
             else Failure(recorded.error);
      }
    }
  }

  // ---------- prepare_folder ----------

  datatype FolderOutcome = ResumeFolder(at: Checkpoint) | CompleteFolder(completed: CompletedTransfer)

  // An offer that `validate_offer` accepts together with its manifest.
  ghost predicate FolderOfferOk(disk: Workspace, offer: TransferOffer, m: FolderManifest) {
    && OfferOk(offer, disk.authentic) && offer.kind.FolderKind?
    && WellFormed(m, disk.canon) && TotalSize(m.entries) == offer.size && disk.manifestDigest(m) == offer.blake3
  }

  method ValidateFolderOffer(disk: Workspace, offer: TransferOffer, m: FolderManifest) returns (ok: bool)
    ensures ok <==> FolderOfferOk(disk, offer, m)
  {
    ok := false;
    if OfferOk(offer, disk.authentic) && offer.kind.FolderKind? {
      var total := Validate(m, disk.canon);
      ok := total.Success? && total.value == offer.size && disk.manifestDigest(m) == offer.blake3;
    }
  }

  // A completed folder: the offer's own receipt, on record, for a tree checked during the call.
  ghost predicate FolderCompleteOk(own: Sidecars, history: seq<Destinations>, from: nat, digest: Digest,
                                   offer: StoredOffer,
                                   m: FolderManifest, completed: CompletedTransfer)
  {
    && completed.receipt == ReceiptOf(offer)
    && own.done == Some(FolderDoneFor(offer, m, completed.destination))
    && FolderChecked(history, from, completed.destination, m, digest)
  }

  method ValidateCompletedFolder(disk: Workspace, done: DoneRecord)
    returns (r: Result<Option<CompletedTransfer>, CoreError>)
    modifies disk`dest, disk`budget, disk`others, disk`history
    ensures r == Failure(Stopped) ==> disk.budget == 0
    ensures old(disk.budget) <= disk.budget + 3 * EntryCount(done.manifest) + 5
    ensures Undisturbed(disk)
    ensures r.Success? && r.value.Some? ==>
      && done.manifest.Some?
      && r.value.value == CompletedTransfer(done.receipt, done.destination)
      && FolderChecked(disk.history, |old(disk.history)|, done.destination, done.manifest.value, disk.digest)
      && (done.destination in disk.kept ==> FolderAt(disk.dest, done.destination, done.manifest.value, disk.digest))
    ensures ValidDestinationName(done.destination) && done.destination in disk.kept && done.manifest.Some?
            && r != Failure(Stopped) ==>
      && (r == Success(Some(CompletedTransfer(done.receipt, done.destination))) <==>
          && WellFormed(done.manifest.value, disk.canon)
          && FolderAt(old(disk.dest), done.destination, done.manifest.value, disk.digest))
      && (r == Success(None) <==> done.destination !in old(disk.dest))
  {
    if !ValidDestinationName(done.destination) {
      r := Failure(BadDestination);
    } else if done.manifest.None? {
      r := Failure(ManifestMissing);
    } else {
      var present := CheckFolderDestination(disk, done.destination, done.manifest.value);
      r := if present.Failure? then Failure(present.error)
           else Success(if present.value then Some(CompletedTransfer(done.receipt, done.destination)) else None);
    }
  }

  // The done record, if there is one of this offer and manifest, with its destination checked.
  method FindFolderDone(disk: Workspace, expected: StoredOffer, m: FolderManifest)
    returns (r: Result<Option<CompletedTransfer>, CoreError>)
    requires RecordsOk(disk.own)
    modifies disk`dest, disk`budget, disk`others, disk`history
    ensures r == Failure(Stopped) ==> disk.budget == 0
    ensures old(disk.budget) <= disk.budget + 3 * |m.entries| + 6
    ensures Undisturbed(disk)
    ensures r.Success? && r.value.Some? ==>
      && FolderCompleteOk(disk.own, disk.history, |old(disk.history)|, disk.digest, expected, m, r.value.value)
      && (r.value.value.destination in disk.kept ==> FolderAt(disk.dest, r.value.value.destination, m, disk.digest))
    ensures r == Success(None) && disk.own.done.Some? ==> SameFolderDone(disk.own, expected, m)
    ensures disk.own.done.None? ==> r == Success(None) || r == Failure(Stopped)
    ensures SameFolderDone(disk.own, expected, m) && disk.own.done.value.destination in disk.kept
            && r != Failure(Stopped) ==>
      var name := disk.own.done.value.destination;
      && (r == Success(Some(CompletedTransfer(ReceiptOf(expected), name)))
          <==> WellFormed(m, disk.canon) && FolderAt(old(disk.dest), name, m, disk.digest))
      && (r == Success(None) <==> name !in old(disk.dest))
  {
    var found := disk.Call(); // read the done record
    if found.Failure? {
      r := Failure(found.error);
    } else if disk.own.done.None? {
      r := Success(None);
    } else if expected != disk.own.done.value.offer {
      r := Failure(Reused);
    } else if disk.own.done.value.manifest != Some(m) {
      r := Failure(ManifestMismatch);
    } else {
      ghost var from := |disk.history|;
      r := ValidateCompletedFolder(disk, disk.own.done.value);
      if r.Success? && r.value.Some? {
        FolderCheckedLater(disk.history, disk.history, from, |old(disk.history)|, disk.own.done.value.destination, m,
                           disk.digest);
      }
    }
  }

  method ReplayFolderDone(disk: Workspace, expected: StoredOffer, m: FolderManifest)
    returns (r: Result<Option<CompletedTransfer>, CoreError>)
    requires RecordsOk(disk.own)
    modifies disk`dest, disk`budget, disk`others, disk`history, disk`own
    ensures r == Failure(Stopped) ==> disk.budget == 0
    ensures old(disk.budget) <= disk.budget + 3 * |m.entries| + 7
    ensures Undisturbed(disk)
    ensures disk.own == old(disk.own)
         || (SameFolderDone(old(disk.own), expected, m) && disk.own == old(disk.own).(done := None))
    ensures r.Success? && r.value.Some? ==>
      && disk.own == old(disk.own)
      && FolderCompleteOk(disk.own, disk.history, |old(disk.history)|, disk.digest, expected, m, r.value.value)
      && (r.value.value.destination in disk.kept ==> FolderAt(disk.dest, r.value.value.destination, m, disk.digest))
    ensures r == Success(None) ==>
      && disk.own == old(disk.own).(done := None)
      && (old(disk.own.done).Some? ==> SameFolderDone(old(disk.own), expected, m))
    ensures old(disk.own.done).None? ==> r == Success(None) || r == Failure(Stopped)
    ensures SameFolderDone(old(disk.own), expected, m) && old(disk.own.done).value.destination in disk.kept ==>
      var name := old(disk.own.done).value.destination;
      && (r != Failure(Stopped) ==>
        && (r == Success(Some(CompletedTransfer(ReceiptOf(expected), name)))
            <==> WellFormed(m, disk.canon) && FolderAt(old(disk.dest), name, m, disk.digest))
        && (r == Success(None) <==> name !in old(disk.dest)))
      && (name in old(disk.dest) ==> disk.own == old(disk.own))
  {
    r := FindFolderDone(disk, expected, m);
    if r == Success(None) && disk.own.done.Some? {
      var removed := disk.Update([disk.own.(done := None)]);
      r := if removed.Success? then Success(None) else Failure(removed.error);
    }
  }

  ghost predicate SameFolderDone(own: Sidecars, expected: StoredOffer, m: FolderManifest) {
    own.done.Some? && own.done.value.offer == expected && own.done.value.manifest == Some(m)
  }

  // ---------- metadata, manifest and staging directory ----------

  // The states `prepare_folder` passes through between the records and the checkpoint.
  ghost predicate FolderOpenReaches(before: Sidecars, expected: StoredOffer, m: FolderManifest, after: Sidecars) {
    var cleared := before.(staging := None);
    var recorded := cleared.(manifest := None, metadata := Some(expected));
    || after == before
    || (before.metadata.None? && (Shrunk(before, after) || after == cleared.(manifest := None) || after == recorded
                                  || after == recorded.(manifest := Some(m))))
    || after == FolderOpened(before, expected, m)
  }

  // A staging directory is kept only with equal metadata and manifest on record.
  function FolderOpened(before: Sidecars, expected: StoredOffer, m: FolderManifest): Sidecars {
    if before.metadata == Some(expected) && before.manifest == Some(m) && before.staging.Some? then before
    else before.(metadata := Some(expected), manifest := Some(m), staging := Some(Staging(map[], {})))
  }

  // Stopped between the metadata and the manifest record.
  ghost predicate HalfRecorded(own: Sidecars, expected: StoredOffer) {
    own.metadata == Some(expected) && own.manifest.None?
  }

  ghost predicate SameFolderMetadata(own: Sidecars, expected: StoredOffer, m: FolderManifest) {
    own.metadata.Some? ==> own.metadata.value == expected && own.manifest == Some(m)
  }

  // Wherever it stops, what it leaves can be continued by the same offer and manifest, except between
  // the metadata and the manifest record: that state is reachable, and refused by every manifest.
  lemma StoppedRecording(before: Sidecars, expected: StoredOffer, m: FolderManifest, after: Sidecars,
                         other: FolderManifest)
    requires SameFolderMetadata(before, expected, m) && FolderOpenReaches(before, expected, m, after)
    ensures SameFolderMetadata(after, expected, m) <==> !(after.metadata == Some(expected) && after.manifest.None?)
    ensures after.metadata.Some? && after.manifest.None? ==> !SameFolderMetadata(after, expected, other)
  {
  }

  // What recording an offer leaves after each of its calls.
  function Recording(before: Sidecars, expected: StoredOffer, m: FolderManifest): seq<Sidecars> {
    var cleared := before.(staging := None);
    var forgotten := cleared.(manifest := None);
    var recorded := forgotten.(metadata := Some(expected));
    [cleared, forgotten, recorded, recorded.(manifest := Some(m))]
  }

  method RecordFolder(disk: Workspace, expected: StoredOffer, m: FolderManifest, survivors: set<string>)
    returns (r: Result<(), CoreError>)
    requires disk.own.metadata.None?
    modifies disk`dest, disk`budget, disk`others, disk`history, disk`own
    ensures r == Failure(Stopped) ==> disk.budget == 0
    ensures old(disk.budget) <= disk.budget + 5
    ensures Undisturbed(disk)
    ensures FolderOpenReaches(old(disk.own), expected, m, disk.own)
    ensures r.Success? ==> disk.own == old(disk.own).(staging := None, metadata := Some(expected), manifest := Some(m))
    ensures r.Failure? ==> r.error == Stopped
    ensures var removal := RemovalCalls(old(disk.own));
      && (r.Success? <==> removal + 3 <= old(disk.budget))
      && (removal <= old(disk.budget) ==>
        var made := if removal + 3 <= old(disk.budget) then 3 else old(disk.budget) - removal;
        disk.own == Recording(old(disk.own), expected, m)[made])
  {
    r := RemoveStaging(disk, survivors);
    if r.Success? {
      var cleared := disk.own.(manifest := None);
      var recorded := cleared.(metadata := Some(expected));
      r := disk.Update([cleared, recorded, recorded.(manifest := Some(m))]);
    }
  }

  // A process that makes that many calls stops between the two records: the state is reachable, and
  // every manifest is refused in it.
  method StopBetweenRecords(disk: Workspace, expected: StoredOffer, m: FolderManifest, survivors: set<string>)
    returns (r: Result<(), CoreError>)
    requires disk.own.metadata.None?
    modifies disk`dest, disk`budget, disk`others, disk`history, disk`own
    ensures r == Failure(Stopped) && HalfRecorded(disk.own, expected)
    ensures forall other :: !SameFolderMetadata(disk.own, expected, other)
  {
    disk.budget := RemovalCalls(disk.own) + 3;
    r := OpenFolder(disk, expected, m, survivors);
  }

  method OpenFolder(disk: Workspace, expected: StoredOffer, m: FolderManifest, survivors: set<string>)
    returns (r: Result<(), CoreError>)
    modifies disk`dest, disk`budget, disk`others, disk`history, disk`own
    ensures r == Failure(Stopped) ==> disk.budget == 0
    ensures old(disk.budget) <= disk.budget + 8
    ensures Undisturbed(disk)
    ensures disk.own == old(disk.own)
         || (SameFolderMetadata(old(disk.own), expected, m) && FolderOpenReaches(old(disk.own), expected, m, disk.own))
    ensures r.Success? ==>
      SameFolderMetadata(old(disk.own), expected, m) && disk.own == FolderOpened(old(disk.own), expected, m)
    ensures r.Failure? && SameFolderMetadata(old(disk.own), expected, m) ==> r.error == Stopped
    ensures HalfRecorded(old(disk.own), expected) ==> r == Failure(ManifestMissing) || r == Failure(Stopped)
    ensures old(disk.own.metadata).None? && old(disk.budget) == RemovalCalls(old(disk.own)) + 3 ==>
      r == Failure(Stopped) && disk.own == Recording(old(disk.own), expected, m)[2]
  {
    r := disk.Update([disk.own]); // read the metadata record
    if r.Failure? {
    } else if disk.own.metadata.None? {
      r := RecordFolder(disk, expected, m, survivors);
    } else if disk.own.metadata.value != expected {
      r := Failure(Reused);
    } else {
      r := disk.Update([disk.own]); // read the manifest record
      if r.Failure? {
      } else if disk.own.manifest.None? {
        r := Failure(ManifestMissing);
      } else if disk.own.manifest.value != m {
        r := Failure(ManifestMismatch);
      }
    }
    if r.Success? && disk.own.staging.Some? {
      r := disk.Update([disk.own]); // symlink_metadata
    } else if r.Success? {
      // symlink_metadata, create_dir
      r := disk.Update([disk.own, disk.own.(staging := Some(Staging(map[], {})))]);
    }
  }

  // ---------- what is kept, wherever it stops ----------

  // The unchanged source trees of some offers with their manifests.
  type Sources = map<(StoredOffer, FolderManifest), FsTree>

  function SourceOf(sources: Sources, offer: StoredOffer, m: FolderManifest): FsTree {
    if (offer, m) in sources then sources[(offer, m)] else map[]
  }

  // A staging directory that could be resumed for one of them holds beginnings of its source.
  ghost predicate StagingOf(own: Sidecars, sources: Sources) {
    own.metadata.Some? && own.metadata.value.kind.FolderKind? && own.manifest.Some? && own.staging.Some?
    && (own.metadata.value, own.manifest.value) in sources ==>
      Partial(TreeOf(own), SourceOf(sources, own.metadata.value, own.manifest.value))
  }

  // No manifest is on record but what was there, under the same metadata, or `m`.
  ghost predicate ManifestKept(before: Sidecars, after: Sidecars, m: FolderManifest) {
    after.metadata.Some? && after.manifest.Some? ==>
      after.manifest == Some(m) || (after.manifest == before.manifest && after.metadata == before.metadata)
  }

  // Consistent records, the file part untouched, and no metadata but what was there or `expected`.
  ghost predicate FolderKept(before: Sidecars, after: Sidecars, expected: StoredOffer) {
    && SidecarsOk(after) && after.part == before.part
    && (after.metadata.Some? ==> after.metadata == before.metadata || after.metadata == Some(expected))
  }

  lemma FolderRecoverKeeps(before: Sidecars, offer: StoredOffer, m: FolderManifest, name: string, after: Sidecars,
                           sources: Sources)
    requires SidecarsOk(before) && before.done.None? && before.commit == Some(FolderCommitFor(offer, m, name))
    requires FolderRecoverReaches(before, offer, m, name, after)
    ensures FolderKept(before, after, offer) && FolderRecorded(after, offer, m, name) && ManifestKept(before, after, m)
    ensures StagingOf(before, sources) ==> StagingOf(after, sources)
  {
    if after != before {
      var s1 := before.(done := Some(FolderDoneFor(offer, m, name)));
      assert SidecarsOk(s1);
      if Shrunk(s1, after) {
        ShrunkKeeps(s1, after, sources);
      }
    }
  }

  lemma ShrunkKeeps(before: Sidecars, after: Sidecars, sources: Sources)
    requires SidecarsOk(before) && Shrunk(before, after)
    ensures SidecarsOk(after)
    ensures after.(staging := None) == before.(staging := None)
    ensures StagingOf(before, sources) ==> StagingOf(after, sources)
  {
  }

  lemma FolderOpenKeeps(before: Sidecars, expected: StoredOffer, m: FolderManifest, after: Sidecars, sources: Sources)
    requires SidecarsOk(before) && expected.kind.FolderKind? && SameFolderMetadata(before, expected, m)
    requires FolderOpenReaches(before, expected, m, after)
    ensures FolderKept(before, after, expected) && after.done == before.done && after.commit == before.commit
    ensures ManifestKept(before, after, m)
    ensures StagingOf(before, sources) ==> StagingOf(after, sources)
  {
    if before.metadata.None? && Shrunk(before, after) {
      ShrunkKeeps(before, after, sources);
    } else if after == FolderOpened(before, expected, m) {
      if after != before {
        assert Partial(TreeOf(after), SourceOf(sources, expected, m));
      }
    } else if after != before {
      assert after.staging.None?;
    }
  }

  lemma RestagedKeeps(before: Sidecars, expected: StoredOffer, m: FolderManifest, after: Sidecars)
    requires SidecarsOk(before) && before.metadata == Some(expected) && before.manifest == Some(m)
             && expected.kind.FolderKind?
    requires Restaged(before, after, {(expected, m)})
    ensures FolderKept(before, after, expected) && after.done == before.done && after.commit == before.commit
  {
  }

  // ---------- the rest of prepare_folder ----------

  // For one of the unchanged sources, the manifest lists its files.
  ghost predicate HonestSource(m: FolderManifest, sources: Sources, offer: StoredOffer, digest: Digest) {
    (offer, m) in sources ==> SourcedFiles(FileEntries(m.entries), SourceOf(sources, offer, m), digest)
  }

  // Ready to receive: everything staged is recorded as this offer's, up to the checkpoint.
  ghost predicate FolderReady(own: Sidecars, expected: StoredOffer, m: FolderManifest, at: Checkpoint, digest: Digest) {
    && own.metadata == Some(expected) && own.manifest == Some(m) && own.staging.Some?
    && CheckpointOk(TreeOf(own), FileEntries(m.entries), at, digest)
  }

  // What was staged for this offer and manifest is still staged, but for whole files with the wrong digest.
  ghost predicate StagedKept(before: Sidecars, after: Sidecars, expected: StoredOffer, m: FolderManifest,
                             digest: Digest) {
    before.metadata == Some(expected) && before.manifest == Some(m) && before.staging.Some? ==>
      after.staging.Some? && NothingLost(TreeOf(before), TreeOf(after), FileEntries(m.entries), digest)
  }

  method ResumeStaging(disk: Workspace, expected: StoredOffer, m: FolderManifest, survivors: set<string>,
                       ghost sources: Sources)
    returns (r: Result<Checkpoint, CoreError>)
    requires SidecarsOk(disk.own) && expected.kind.FolderKind? && WellFormed(m, disk.canon)
    modifies disk`dest, disk`budget, disk`others, disk`history, disk`own
    ensures r == Failure(Stopped) ==> disk.budget == 0
    ensures old(disk.budget) <= disk.budget + CheckpointCalls(|m.entries|) + 8
    ensures Undisturbed(disk)
    ensures FolderKept(old(disk.own), disk.own, expected)
    ensures disk.own.done == old(disk.own.done) && disk.own.commit == old(disk.own.commit)
    ensures r.Success? ==> FolderReady(disk.own, expected, m, r.value, disk.digest)
    ensures StagedKept(old(disk.own), disk.own, expected, m, disk.digest)
    ensures !old(SameFolderMetadata(disk.own, expected, m)) ==> r.Failure? && disk.own == old(disk.own)
    ensures old(HalfRecorded(disk.own, expected)) ==> r == Failure(ManifestMissing) || r == Failure(Stopped)
    ensures ManifestKept(old(disk.own), disk.own, m) && RecordsStay(old(disk.own), disk.own)
    ensures old(StagingOf(disk.own, sources)) && HonestSource(m, sources, expected, disk.digest) ==>
      && StagingOf(disk.own, sources)
      && ((expected, m) in sources ==>
        && (r.Success? ==>
             FilesDone(TreeOf(disk.own), SourceOf(sources, expected, m), FileEntries(m.entries), r.value.fileIndex))
        && (old(SameFolderMetadata(disk.own, expected, m)) ==> r.Success? || r == Failure(Stopped)))
  {
    ghost var before := disk.own;
    var ready := OpenFolder(disk, expected, m, survivors);
    ghost var opening := disk.own;
    if opening != before {
      FolderOpenKeeps(before, expected, m, opening, sources);
    }
    if ready.Failure? {
      r := Failure(ready.error);
    } else {
      var files := FileEntries(m.entries);
      FilesDistinct(m.entries);
      FilesTotal(m.entries);
      FilesAmong(m.entries);
      r := TakeCheckpoint(disk, files, 0, 0, SourceOf(sources, expected, m));
      RestagedKeeps(opening, expected, m, disk.own);
    }
  }

  // The record on disk belongs to another offer or manifest, or to none.
  ghost predicate OtherFolderOnRecord(own: Sidecars, expected: StoredOffer, m: FolderManifest) {
    if own.done.Some? then !SameFolderDone(own, expected, m)
    else if own.commit.Some? then !(own.commit.value.offer == expected && own.commit.value.manifest == Some(m))
    else !SameFolderMetadata(own, expected, m)
  }

  // The destination named by the record `prepare_folder` will act on.
  function FolderNameOnRecord(own: Sidecars, expected: StoredOffer, m: FolderManifest): Option<string> {
    if own.done.Some? then
      if own.done.value.offer == expected && own.done.value.manifest == Some(m) then Some(own.done.value.destination)
      else None
    else if own.commit.Some? && own.commit.value.offer == expected && own.commit.value.manifest == Some(m) then
      Some(own.commit.value.destination)
    else None
  }

  // No destination was recorded yet, or the recorded one is still free and nobody else touches it.
  ghost predicate FolderFree(own: Sidecars, dest: Destinations, kept: set<string>, expected: StoredOffer,
                             m: FolderManifest) {
    own.commit.Some? ==>
      && own.commit.value.offer == expected && own.commit.value.manifest == Some(m)
      && own.commit.value.destination in kept && own.commit.value.destination !in dest
  }

  // Nothing of this offer is at a destination, or nothing any more: what is recorded done is gone.
  ghost predicate FolderNotYetThere(own: Sidecars, dest: Destinations, kept: set<string>, expected: StoredOffer,
                                    m: FolderManifest) {
    && (own.done.Some? ==>
      SameFolderDone(own, expected, m) && own.done.value.destination in kept && own.done.value.destination !in dest)
    && FolderFree(own, dest, kept, expected, m)
  }

  // The destination on record is there as it should be, and nobody else touches it.
  ghost predicate FolderIntact(own: Sidecars, dest: Destinations, kept: set<string>, expected: StoredOffer,
                               m: FolderManifest, digest: Digest) {
    var record := FolderNameOnRecord(own, expected, m);
    record.Some? && record.value in kept && FolderAt(dest, record.value, m, digest)
  }

  // Something else is at the destination on record, and nobody touches it.
  ghost predicate FolderOccupied(own: Sidecars, dest: Destinations, kept: set<string>, expected: StoredOffer,
                                 m: FolderManifest, digest: Digest) {
    var record := FolderNameOnRecord(own, expected, m);
    record.Some? && record.value in kept && record.value in dest && !FolderAt(dest, record.value, m, digest)
  }

  // What is at a destination on record decides what becomes of its offer.
  lemma RecordedFolderThreeWays(own: Sidecars, dest: Destinations, kept: set<string>, expected: StoredOffer,
                                m: FolderManifest, digest: Digest)
    requires RecordsOk(own)
    requires FolderNameOnRecord(own, expected, m).Some? && FolderNameOnRecord(own, expected, m).value in kept
    ensures FolderIntact(own, dest, kept, expected, m, digest) <==>
      !FolderOccupied(own, dest, kept, expected, m, digest) && !FolderNotYetThere(own, dest, kept, expected, m)
    ensures FolderOccupied(own, dest, kept, expected, m, digest) ==> !FolderNotYetThere(own, dest, kept, expected, m)
  {
  }

  // Nothing on disk stands in the way of continuing this offer.
  ghost predicate FolderResumable(own: Sidecars, dest: Destinations, kept: set<string>, expected: StoredOffer,
                                  m: FolderManifest) {
    FolderNotYetThere(own, dest, kept, expected, m) && SameFolderMetadata(own, expected, m)
  }

  // `prepare_folder` from the point where no done record stands in the way.
  method PrepareUnfinishedFolder(disk: Workspace, expected: StoredOffer, m: FolderManifest, survivors: set<string>,
                                 ghost sources: Sources, ghost honest: bool)
    returns (r: Result<FolderOutcome, CoreError>)
    requires SidecarsOk(disk.own) && disk.own.done.None? && expected.kind.FolderKind? && WellFormed(m, disk.canon)
    requires honest ==> StagingOf(disk.own, sources) && HonestSource(m, sources, expected, disk.digest)
    modifies disk`dest, disk`budget, disk`others, disk`history, disk`own
    ensures r == Failure(Stopped) ==> disk.budget == 0
    ensures old(disk.budget) <= disk.budget + CheckpointCalls(|m.entries|) + 3 * |m.entries| + 20
    ensures Undisturbed(disk)
    ensures FolderKept(old(disk.own), disk.own, expected)
    ensures r.Success? && r.value.CompleteFolder? ==>
      && FolderCompleteOk(disk.own, disk.history, |old(disk.history)|, disk.digest, expected, m, r.value.completed)
      && (r.value.completed.destination in disk.kept ==>
           FolderAt(disk.dest, r.value.completed.destination, m, disk.digest))
    ensures r.Success? && r.value.ResumeFolder? ==>
      && FolderReady(disk.own, expected, m, r.value.at, disk.digest)
      && StagedKept(old(disk.own), disk.own, expected, m, disk.digest)
      && disk.own.done.None? && disk.own.commit == old(disk.own.commit)
    ensures honest ==>
      && StagingOf(disk.own, sources)
      && ((expected, m) in sources ==>
        && (r.Success? && r.value.ResumeFolder? ==>
          FilesDone(TreeOf(disk.own), SourceOf(sources, expected, m), FileEntries(m.entries), r.value.at.fileIndex))
        && (old(FolderResumable(disk.own, disk.dest, disk.kept, expected, m)) ==>
          (r.Success? && r.value.ResumeFolder?) || r == Failure(Stopped)))
    ensures ManifestKept(old(disk.own), disk.own, m)
    ensures old(FolderFree(disk.own, disk.dest, disk.kept, expected, m)) ==>
      && disk.own.done.None? && disk.own.commit == old(disk.own.commit) && RecordsStay(old(disk.own), disk.own)
      && !(r.Success? && r.value.CompleteFolder?)
      && (old(HalfRecorded(disk.own, expected)) ==>
        HalfRecorded(disk.own, expected) && (r == Failure(ManifestMissing) || r == Failure(Stopped)))
    ensures old(OtherFolderOnRecord(disk.own, expected, m)) ==> disk.own == old(disk.own) && r.Failure?
    ensures old(FolderIntact(disk.own, disk.dest, disk.kept, expected, m, disk.digest)) ==>
      var name := old(FolderNameOnRecord(disk.own, expected, m)).value;
      && (r == Success(CompleteFolder(CompletedTransfer(ReceiptOf(expected), name))) || r == Failure(Stopped))
      && FolderRecorded(disk.own, expected, m, name)
    ensures old(FolderOccupied(disk.own, disk.dest, disk.kept, expected, m, disk.digest)) ==>
      r.Failure? && disk.own == old(disk.own)
  {
    ghost var before := disk.own;
    var recovered := FindCommit(disk, expected, m, survivors);
    if before.commit.Some? && disk.own != before {
      FolderRecoverKeeps(before, expected, m, before.commit.value.destination, disk.own, sources);
    }
    if recovered.Failure? {
      r := Failure(recovered.error);
    } else if recovered.value.Some? {
      r := Success(CompleteFolder(recovered.value.value));
    } else {
      var at := ResumeStaging(disk, expected, m, survivors, sources);
      r := if at.Success? then Success(ResumeFolder(at.value)) else Failure(at.error);
    }
  }

  // The commit record, if there is one, recovered.
  method FindCommit(disk: Workspace, expected: StoredOffer, m: FolderManifest, survivors: set<string>)
    returns (r: Result<Option<CompletedTransfer>, CoreError>)
    requires SidecarsOk(disk.own) && disk.own.done.None? && expected.kind.FolderKind? && WellFormed(m, disk.canon)
    modifies disk`dest, disk`budget, disk`others, disk`history, disk`own
    ensures r == Failure(Stopped) ==> disk.budget == 0
    ensures old(disk.budget) <= disk.budget + 3 * |m.entries| + 12
    ensures Undisturbed(disk)
    ensures disk.own == old(disk.own)
         || (FolderNameOnRecord(old(disk.own), expected, m).Some?
             && FolderRecoverReaches(old(disk.own), expected, m, FolderNameOnRecord(old(disk.own), expected, m).value,
                                     disk.own))
    ensures r.Success? && r.value.Some? ==>
      && FolderCompleteOk(disk.own, disk.history, |old(disk.history)|, disk.digest, expected, m, r.value.value)
      && (r.value.value.destination in disk.kept ==> FolderAt(disk.dest, r.value.value.destination, m, disk.digest))
    ensures r == Success(None) ==> disk.own == old(disk.own)
    ensures old(disk.own.commit.Some? && OtherFolderOnRecord(disk.own, expected, m)) ==>
      disk.own == old(disk.own) && r.Failure?
    ensures old(FolderFree(disk.own, disk.dest, disk.kept, expected, m)) ==>
      (r == Success(None) || r == Failure(Stopped)) && disk.own == old(disk.own)
    ensures old(FolderIntact(disk.own, disk.dest, disk.kept, expected, m, disk.digest)) ==>
      || r == Success(Some(CompletedTransfer(ReceiptOf(expected),
                                             old(FolderNameOnRecord(disk.own, expected, m)).value)))
      || r == Failure(Stopped)
    ensures old(FolderOccupied(disk.own, disk.dest, disk.kept, expected, m, disk.digest)) ==>
      r.Failure? && disk.own == old(disk.own)
  {
    var found := disk.Call(); // read the commit record
    if found.Failure? {
      r := Failure(found.error);
    } else if disk.own.commit.None? {
      r := Success(None);
    } else if expected != disk.own.commit.value.offer {
      r := Failure(Reused);
    } else if disk.own.commit.value.manifest != Some(m) {
      r := Failure(ManifestMismatch);
    } else {
      ghost var from := |disk.history|;
      r := RecoverFolderCommit(disk, disk.own.commit.value, survivors);
      if r.Success? && r.value.Some? {
        FolderCheckedLater(disk.history, disk.history, from, |old(disk.history)|, r.value.value.destination, m,
                           disk.digest);
      }
    }
  }

  lemma FolderStaysFree(own: Sidecars, a: Destinations, b: Destinations, kept: set<string>, expected: StoredOffer,
                        m: FolderManifest)
    requires SameKept(a, b, kept)
    ensures FolderFree(own, a, kept, expected, m) ==> FolderFree(own, b, kept, expected, m)
  {
    assert own.commit.Some? && own.commit.value.destination in kept ==> SameAt(a, b, own.commit.value.destination);
  }

  lemma FolderStaysAway(own: Sidecars, a: Destinations, b: Destinations, kept: set<string>, expected: StoredOffer,
                        m: FolderManifest)
    requires SameKept(a, b, kept)
    ensures FolderNotYetThere(own, a, kept, expected, m) ==> FolderNotYetThere(own, b, kept, expected, m)
  {
    FolderStaysFree(own, a, b, kept, expected, m);
    assert own.done.Some? && own.done.value.destination in kept ==> SameAt(a, b, own.done.value.destination);
  }

  lemma DoneDropped(own: Sidecars, sources: Sources)
    ensures SidecarsOk(own) ==> SidecarsOk(own.(done := None))
    ensures StagingOf(own, sources) <==> StagingOf(own.(done := None), sources)
  {
  }

  // `prepare_folder` once the offer is accepted.
  method PrepareAccepted(disk: Workspace, expected: StoredOffer, m: FolderManifest, survivors: set<string>,
                         ghost sources: Sources, ghost honest: bool)
    returns (r: Result<FolderOutcome, CoreError>)
    requires SidecarsOk(disk.own) && expected.kind.FolderKind? && WellFormed(m, disk.canon)
    requires honest ==> StagingOf(disk.own, sources) && HonestSource(m, sources, expected, disk.digest)
    modifies disk`dest, disk`budget, disk`others, disk`history, disk`own
    ensures r == Failure(Stopped) ==> disk.budget == 0
    ensures old(disk.budget) <= disk.budget + CheckpointCalls(|m.entries|) + 6 * |m.entries| + 27
    ensures Undisturbed(disk)
    ensures FolderKept(old(disk.own), disk.own, expected)
    ensures r.Success? && r.value.CompleteFolder? ==>
      && FolderCompleteOk(disk.own, disk.history, |old(disk.history)|, disk.digest, expected, m, r.value.completed)
      && (r.value.completed.destination in disk.kept ==>
           FolderAt(disk.dest, r.value.completed.destination, m, disk.digest))
    ensures r.Success? && r.value.ResumeFolder? ==>
      && FolderReady(disk.own, expected, m, r.value.at, disk.digest)
      && StagedKept(old(disk.own), disk.own, expected, m, disk.digest)
      && disk.own.done.None? && disk.own.commit == old(disk.own.commit)
    ensures honest ==>
      && StagingOf(disk.own, sources)
      && ((expected, m) in sources ==>
        && (r.Success? && r.value.ResumeFolder? ==>
          FilesDone(TreeOf(disk.own), SourceOf(sources, expected, m), FileEntries(m.entries), r.value.at.fileIndex))
        && (old(FolderResumable(disk.own, disk.dest, disk.kept, expected, m)) ==>
          (r.Success? && r.value.ResumeFolder?) || r == Failure(Stopped)))
    ensures ManifestKept(old(disk.own), disk.own, m)
    ensures old(FolderNotYetThere(disk.own, disk.dest, disk.kept, expected, m)) ==>
      && (disk.own.done == old(disk.own.done) || disk.own.done.None?) && RecordsStay(old(disk.own), disk.own)
      && disk.own.commit == old(disk.own.commit) && !(r.Success? && r.value.CompleteFolder?)
      && (old(HalfRecorded(disk.own, expected)) ==>
        HalfRecorded(disk.own, expected) && (r == Failure(ManifestMissing) || r == Failure(Stopped)))
    ensures old(OtherFolderOnRecord(disk.own, expected, m)) ==> disk.own == old(disk.own) && r.Failure?
    ensures old(FolderIntact(disk.own, disk.dest, disk.kept, expected, m, disk.digest)) ==>
      var name := old(FolderNameOnRecord(disk.own, expected, m)).value;
      && (r == Success(CompleteFolder(CompletedTransfer(ReceiptOf(expected), name))) || r == Failure(Stopped))
      && FolderRecorded(disk.own, expected, m, name)
    ensures old(FolderOccupied(disk.own, disk.dest, disk.kept, expected, m, disk.digest)) ==>
      r.Failure? && disk.own == old(disk.own)
  {
    ghost var before, dest := disk.own, disk.dest;
    DoneDropped(before, sources);
    var replayed := ReplayFolderDone(disk, expected, m);
    if replayed.Failure? {
      r := Failure(replayed.error);
    } else if replayed.value.Some? {
      r := Success(CompleteFolder(replayed.value.value));
    } else {
      assert before.done.None? ==> disk.own == before;
      FolderStaysFree(before, dest, disk.dest, disk.kept, expected, m);
      ghost var from := |disk.history|;
      r := PrepareUnfinishedFolder(disk, expected, m, survivors, sources, honest);
      if r.Success? && r.value.CompleteFolder? {
        FolderCheckedLater(disk.history, disk.history, from, |old(disk.history)|, r.value.completed.destination, m,
                           disk.digest);
      }
    }
  }

  method PrepareFolder(disk: Workspace, offer: TransferOffer, m: FolderManifest, survivors: set<string>,
                       ghost sources: Sources)
    returns (r: Result<FolderOutcome, CoreError>)
    requires SidecarsOk(disk.own)
    modifies disk`dest, disk`budget, disk`others, disk`history, disk`own
    ensures r == Failure(Stopped) ==> disk.budget == 0
    ensures old(disk.budget) <= disk.budget + CheckpointCalls(|m.entries|) + 6 * |m.entries| + 27
    ensures Undisturbed(disk)
    ensures FolderKept(old(disk.own), disk.own, Stored(offer))
    // What is not an acceptable offer of this folder is refused, and nothing changes.
    ensures !FolderOfferOk(disk, offer, m) ==> r == Failure(InvalidOffer) && disk.own == old(disk.own)
    ensures r.Success? && r.value.CompleteFolder? ==>
      && FolderCompleteOk(disk.own, disk.history, |old(disk.history)|, disk.digest, Stored(offer), m, r.value.completed)
      && (r.value.completed.destination in disk.kept ==>
           FolderAt(disk.dest, r.value.completed.destination, m, disk.digest))
    ensures r.Success? && r.value.ResumeFolder? ==>
      && FolderReady(disk.own, Stored(offer), m, r.value.at, disk.digest)
      && StagedKept(old(disk.own), disk.own, Stored(offer), m, disk.digest)
      && SenderAccepts(FileEntries(m.entries), r.value.at)
      && disk.own.done.None? && disk.own.commit == old(disk.own.commit)
    ensures old(StagingOf(disk.own, sources)) && HonestSource(m, sources, Stored(offer), disk.digest) ==>
      && StagingOf(disk.own, sources)
      && ((Stored(offer), m) in sources ==>
        && (r.Success? && r.value.ResumeFolder? ==>
          FilesDone(TreeOf(disk.own), SourceOf(sources, Stored(offer), m), FileEntries(m.entries),
                    r.value.at.fileIndex))
        && (old(FolderResumable(disk.own, disk.dest, disk.kept, Stored(offer), m)) && FolderOfferOk(disk, offer, m) ==>
          (r.Success? && r.value.ResumeFolder?) || r == Failure(Stopped)))
    ensures ManifestKept(old(disk.own), disk.own, m)
    // A destination on record that is free does not stand in the way; a record that it is done is dropped.
    ensures old(FolderNotYetThere(disk.own, disk.dest, disk.kept, Stored(offer), m)) ==>
      && (disk.own.done == old(disk.own.done) || disk.own.done.None?) && RecordsStay(old(disk.own), disk.own)
      && disk.own.commit == old(disk.own.commit) && !(r.Success? && r.value.CompleteFolder?)
      && (old(HalfRecorded(disk.own, Stored(offer))) && FolderOfferOk(disk, offer, m) ==>
        HalfRecorded(disk.own, Stored(offer)) && (r == Failure(ManifestMissing) || r == Failure(Stopped)))
    // Another offer or manifest on record, or metadata without a manifest, is not disturbed.
    ensures old(OtherFolderOnRecord(disk.own, Stored(offer), m)) ==> disk.own == old(disk.own) && r.Failure?
    // A matching destination on record is always completed with.
    ensures old(FolderIntact(disk.own, disk.dest, disk.kept, Stored(offer), m, disk.digest)) ==>
      var name := old(FolderNameOnRecord(disk.own, Stored(offer), m)).value;
      && (FolderOfferOk(disk, offer, m) ==>
          r == Success(CompleteFolder(CompletedTransfer(ReceiptOf(Stored(offer)), name))) || r == Failure(Stopped))
      && FolderRecorded(disk.own, Stored(offer), m, name)
    // Something else there is always refused, and nothing changes.
    ensures old(FolderOccupied(disk.own, disk.dest, disk.kept, Stored(offer), m, disk.digest)) ==>
      r.Failure? && disk.own == old(disk.own)
  {
    var ok := ValidateFolderOffer(disk, offer, m);
    if !ok {
      r := Failure(InvalidOffer);
    } else {
      ghost var honest := StagingOf(disk.own, sources) && HonestSource(m, sources, Stored(offer), disk.digest);
      r := PrepareAccepted(disk, Stored(offer), m, survivors, sources, honest);
    }
  }
}

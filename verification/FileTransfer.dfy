// Receiving one file: resume, recover or replay, append, commit.
module FileTransfer {
  import opened Wrappers
  import opened Text
  import opened Names
  import opened FolderTree
  import opened Offers
  import opened Disk

  datatype PrepareOutcome = Resume(offset: nat) | Complete(completed: CompletedTransfer)

  // ---------- what a crash leaves ----------

  function CommitFor(offer: StoredOffer, name: string): CommitRecord {
    CommitRecord(offer, name, None)
  }

  function DoneFor(offer: StoredOffer, name: string): DoneRecord {
    DoneRecord(offer, name, ReceiptOf(offer), None)
  }

  ghost predicate CommitRecorded(own: Sidecars, offer: StoredOffer, name: string) {
    || own.done == Some(DoneFor(offer, name))
    || (own.done == None && own.commit == Some(CommitFor(offer, name)))
  }

  // The states `recover_commit` passes through.
  ghost predicate RecoverReaches(before: Sidecars, commit: CommitRecord, after: Sidecars) {
    var s1 := before.(done := Some(DoneFor(commit.offer, commit.destination)));
    var s2 := s1.(part := None);
    var s3 := s2.(metadata := None);
    after == before || after == s1 || after == s2 || after == s3 || after == Recovered(before, commit)
  }

  function Recovered(before: Sidecars, commit: CommitRecord): Sidecars {
    before.(done := Some(DoneFor(commit.offer, commit.destination)), part := None, metadata := None, commit := None)
  }

  // The states the last third of `prepare` passes through.
  ghost predicate OpenReaches(before: Sidecars, expected: StoredOffer, after: Sidecars) {
    || after == before
    || ((before.metadata.None? || before.metadata.value == expected) && after == Opened(before, expected))
    || (before.metadata.None?
        && (after == before.(part := None) || after == before.(part := None, metadata := Some(expected))))
  }

  function Opened(before: Sidecars, expected: StoredOffer): Sidecars {
    if before.metadata.Some? && before.part.Some? then before
    else before.(metadata := Some(expected), part := Some(PartFile([], {})))
  }

  // ---------- state.rs helpers ----------

  method EnsureFileDestination(disk: Workspace, name: string, size: nat, blake3: string)
    returns (r: Result<(), CoreError>)
    modifies disk`dest, disk`budget, disk`others, disk`history
    ensures r == Failure(Stopped) ==> disk.budget == 0
    ensures old(disk.budget) <= disk.budget + 2
    ensures Undisturbed(disk)
    ensures r.Success? ==> FileChecked(disk.history, |old(disk.history)|, name, size, blake3, disk.digest)
    ensures name in disk.kept && r != Failure(Stopped) ==>
      (r.Success? <==> FileAt(old(disk.dest), name, size, blake3, disk.digest))
  {
    var _ :- disk.Call(); // symlink_metadata
    if name !in disk.dest || !disk.dest[name].RegularFile? {
      return Failure(NotRegular);
    }
    ghost var seen := disk.history;
    if |disk.dest[name].data| != size {
      return Failure(DigestMismatch);
    }
    var _ :- disk.Call(); // read and hash
    if name !in disk.dest || !disk.dest[name].RegularFile? {
      return Failure(NotRegular);
    }
    if disk.digest(disk.dest[name].data) != blake3 {
      return Failure(DigestMismatch);
    }
    assert disk.history[|seen| - 1] == seen[|seen| - 1];
    assert disk.history[|disk.history| - 1] == disk.dest;
    return Success(());
  }

  // The opening shared by `validate_completed` and `recover_commit`: false if nothing is there.
  method CheckDestination(disk: Workspace, name: string, size: nat, blake3: string) returns (r: Result<bool, CoreError>)
    modifies disk`dest, disk`budget, disk`others, disk`history
    ensures r == Failure(Stopped) ==> disk.budget == 0
    ensures old(disk.budget) <= disk.budget + 3
    ensures Undisturbed(disk)
    ensures r == Success(true) ==>
      && FileChecked(disk.history, |old(disk.history)|, name, size, blake3, disk.digest)
      && (name in disk.kept ==> FileAt(disk.dest, name, size, blake3, disk.digest))
    ensures ValidDestinationName(name) && r != Failure(Stopped) && name in disk.kept ==>
      && (r == Success(false) <==> name !in old(disk.dest))
      && (r == Success(true) <==> FileAt(old(disk.dest), name, size, blake3, disk.digest))
  {
    if !ValidDestinationName(name) {
      return Failure(BadDestination);
    }
    var _ :- disk.Call(); // try_exists
    if name !in disk.dest {
      return Success(false);
    }
    var _ :- EnsureFileDestination(disk, name, size, blake3);
    return Success(true);
  }

  method RecoverCommit(disk: Workspace, commit: CommitRecord) returns (r: Result<Option<CompletedTransfer>, CoreError>)
    requires disk.own.commit == Some(commit)
    modifies disk`dest, disk`budget, disk`others, disk`history, disk`own
    ensures r == Failure(Stopped) ==> disk.budget == 0
    ensures old(disk.budget) <= disk.budget + 7
    ensures Undisturbed(disk)
    ensures RecoverReaches(old(disk.own), commit, disk.own)
    ensures r.Success? && r.value.Some? ==>
      && r.value.value == CompletedTransfer(ReceiptOf(commit.offer), commit.destination)
      && FileChecked(disk.history, |old(disk.history)|, commit.destination, commit.offer.size, commit.offer.blake3,
                     disk.digest)
      && disk.own == Recovered(old(disk.own), commit)
      && (commit.destination in disk.kept ==>
           FileAt(disk.dest, commit.destination, commit.offer.size, commit.offer.blake3, disk.digest))
    ensures r == Success(None) || (r.Failure? && r.error != Stopped) ==> disk.own == old(disk.own)
    // An intact destination is completed with, a free one is left to be taken, and anything else refused.
    ensures ValidDestinationName(commit.destination) && commit.destination in disk.kept ==>
      var intact := FileAt(old(disk.dest), commit.destination, commit.offer.size, commit.offer.blake3, disk.digest);
      && (r != Failure(Stopped) ==>
        (r.Success? && r.value.Some? <==> intact) && (r == Success(None) <==> commit.destination !in old(disk.dest)))
      && (!intact ==> disk.own == old(disk.own))
  {
    var present :- CheckDestination(disk, commit.destination, commit.offer.size, commit.offer.blake3);
    if !present {
      return Success(None);
    }
    ghost var checked := disk.history;
    var _ :- RecordRecovered(disk, commit);
    FileCheckedLater(checked, disk.history, |old(disk.history)|, |old(disk.history)|, commit.offer, commit.destination,
                     disk.digest);
    return Success(Some(CompletedTransfer(ReceiptOf(commit.offer), commit.destination)));
  }

  // The done record of a recovered commit, and the clean-up.
  method RecordRecovered(disk: Workspace, commit: CommitRecord) returns (r: Result<(), CoreError>)
    modifies disk`dest, disk`budget, disk`others, disk`history, disk`own
    ensures r == Failure(Stopped) ==> disk.budget == 0
    ensures old(disk.budget) <= disk.budget + 4
    ensures Undisturbed(disk)
    ensures RecoverReaches(old(disk.own), commit, disk.own)
    ensures r.Success? ==> disk.own == Recovered(old(disk.own), commit)
    ensures r.Failure? ==> r.error == Stopped
  {
    var record := DoneRecord(commit.offer, commit.destination, ReceiptOf(commit.offer), None);
    var recorded := disk.own.(done := Some(record));
    var partGone := recorded.(part := None);
    var metadataGone := partGone.(metadata := None);
    var commitGone := metadataGone.(commit := None);
    r := disk.Update([recorded, partGone, metadataGone, commitGone]);
  }

  lemma FileCheckedLater(h: seq<Destinations>, later: seq<Destinations>, from: nat, since: nat, offer: StoredOffer,
                         name: string, digest: Digest)
    requires h <= later && since <= from
    ensures FileChecked(h, from, name, offer.size, offer.blake3, digest) ==>
      FileChecked(later, since, name, offer.size, offer.blake3, digest)
  {
    if FileChecked(h, from, name, offer.size, offer.blake3, digest) {
      var i, j :| from <= i <= j < |h|
        && name in h[i] && h[i][name].RegularFile? && |h[i][name].data| == offer.size
        && name in h[j] && h[j][name].RegularFile? && digest(h[j][name].data) == offer.blake3;
      assert later[i] == h[i] && later[j] == h[j];
    }
  }

  // The part file to append to: the one written for this offer, or an empty one.
  method OpenPart(disk: Workspace, expected: StoredOffer) returns (r: Result<nat, CoreError>)
    modifies disk`dest, disk`budget, disk`others, disk`history, disk`own
    ensures r == Failure(Stopped) ==> disk.budget == 0
    ensures old(disk.budget) <= disk.budget + 7
    ensures Undisturbed(disk)
    ensures OpenReaches(old(disk.own), expected, disk.own)
    ensures r.Success? ==>
      && (old(disk.own.metadata).Some? ==> old(disk.own.metadata).value == expected)
      && disk.own == Opened(old(disk.own), expected) && r.value == |disk.own.part.value.data| <= expected.size
    ensures r.Failure? && r.error != Stopped ==>
      && disk.own == old(disk.own) && disk.own.metadata.Some?
      && (r.error == Reused ==> disk.own.metadata != Some(expected))
      && (r.error != Reused ==>
           r.error == PartTooLarge && disk.own.part.Some? && |disk.own.part.value.data| > expected.size)
  {
    var found := disk.Call(); // read the metadata record
    if found.Failure? {
      r := Failure(found.error);
    } else if disk.own.metadata.Some? && disk.own.metadata.value != expected {
      r := Failure(Reused);
    } else {
      var recorded := RecordOffer(disk, expected);
      if recorded.Success? && disk.own.part.None? {
        var created := disk.own.(part := Some(PartFile([], {})));
        recorded := disk.Update([created, created]); // create, sync_all
      }
      if recorded.Failure? {
        r := Failure(recorded.error);
      } else if |disk.own.part.value.data| > expected.size {
        r := Failure(PartTooLarge);
      } else {
        r := Success(|disk.own.part.value.data|);
      }
    }
  }

  // Without metadata, what is there is removed and the offer recorded; then the part's length is read.
  method RecordOffer(disk: Workspace, expected: StoredOffer) returns (r: Result<(), CoreError>)
    modifies disk`dest, disk`budget, disk`others, disk`history, disk`own
    ensures r == Failure(Stopped) ==> disk.budget == 0
    ensures old(disk.budget) <= disk.budget + 4
    ensures Undisturbed(disk)
    ensures disk.own == old(disk.own)
         || (old(disk.own.metadata).None?
             && (disk.own == old(disk.own).(part := None)
                 || disk.own == old(disk.own).(part := None, metadata := Some(expected))))
    ensures r.Success? ==>
      disk.own == if old(disk.own.metadata).Some? then old(disk.own)
                  else old(disk.own).(part := None, metadata := Some(expected))
    ensures r.Failure? ==> r.error == Stopped
  {
    r := Success(());
    if disk.own.metadata.None? {
      var partGone := disk.own.(part := None);
      var recorded := partGone.(metadata := Some(expected));
      // try_exists, remove what is there, record the offer
      r := disk.Update(if disk.own.part.Some? then [disk.own, partGone, recorded] else [disk.own, recorded]);
    }
    if r.Success? {
      r := disk.Call(); // metadata of the part file
    }
  }

  // ---------- prepare ----------

  ghost predicate UnfinishedReaches(before: Sidecars, expected: StoredOffer, after: Sidecars) {
    || after == before
    || ((before.commit.Some? ==> before.commit.value.offer == expected)
        && ((before.commit.Some? && RecoverReaches(before, before.commit.value, after))
            || OpenReaches(before, expected, after)))
  }

  // The states `prepare` passes through.
  ghost predicate PrepareReaches(before: Sidecars, expected: StoredOffer, after: Sidecars) {
    || after == before
    || (before.done.Some? && before.done.value.offer == expected
        && UnfinishedReaches(before.(done := None), expected, after))
    || (before.done.None? && UnfinishedReaches(before, expected, after))
  }

  // A replayed receipt is the offer's own, for a destination checked during the call and on record.
  ghost predicate CompleteOk(own: Sidecars, history: seq<Destinations>, from: nat, digest: Digest,
                             expected: StoredOffer,
                             completed: CompletedTransfer)
  {
    && completed.receipt == ReceiptOf(expected)
    && own.done == Some(DoneFor(expected, completed.destination))
    && FileChecked(history, from, completed.destination, expected.size, expected.blake3, digest)
  }

  // A part that may be resumed: the one stored under an equal offer, or an empty one.
  ghost predicate ResumeOk(before: Sidecars, after: Sidecars, expected: StoredOffer, offset: nat) {
    && after == Opened(before.(done := None), expected)
    && (before.metadata.Some? ==> before.metadata.value == expected)
    && (before.commit.Some? ==> before.commit.value.offer == expected)
    && (before.done.Some? ==> before.done.value.offer == expected)
    && offset == |after.part.value.data| <= expected.size
  }

  // The destination named by the record `prepare` will act on.
  function NameOnRecord(own: Sidecars, expected: StoredOffer): Option<string> {
    if own.done.Some? then (if own.done.value.offer == expected then Some(own.done.value.destination) else None)
    else if own.commit.Some? && own.commit.value.offer == expected then Some(own.commit.value.destination)
    else None
  }

  // The record that named the destination is still there, or was turned into a done record.
  ghost predicate KeptOnRecord(before: Sidecars, after: Sidecars) {
    after == before || (before.done.None? && before.commit.Some? && RecoverReaches(before, before.commit.value, after))
  }

  // No destination was recorded yet, or the recorded one is still free and nobody else touches it.
  ghost predicate FreeToCommit(own: Sidecars, dest: Destinations, kept: set<string>, expected: StoredOffer) {
    own.commit.Some? ==>
      && own.commit.value.offer == expected && own.commit.value.destination in kept
      && own.commit.value.destination !in dest
  }

  // Nothing of this offer is at a destination, or nothing any more: what is recorded done is gone.
  ghost predicate NotYetThere(own: Sidecars, dest: Destinations, kept: set<string>, expected: StoredOffer) {
    && (own.done.Some? ==>
      own.done.value.offer == expected && own.done.value.destination in kept && own.done.value.destination !in dest)
    && FreeToCommit(own, dest, kept, expected)
  }

  // No record of what is being received has gone.
  ghost predicate RecordsStay(before: Sidecars, after: Sidecars) {
    && (before.metadata.Some? ==> after.metadata == before.metadata)
    && (before.commit.Some? ==> after.commit == before.commit)
  }

  // The destination on record is there as it should be, and nobody else touches it.
  ghost predicate FileIntact(own: Sidecars, dest: Destinations, kept: set<string>, expected: StoredOffer,
                             digest: Digest) {
    var record := NameOnRecord(own, expected);
    && expected.kind.FileKind? && record.Some? && record.value in kept
    && FileAt(dest, record.value, expected.size, expected.blake3, digest)
  }

  // Something else is at the destination on record, and nobody touches it.
  ghost predicate FileOccupied(own: Sidecars, dest: Destinations, kept: set<string>, expected: StoredOffer,
                               digest: Digest) {
    var record := NameOnRecord(own, expected);
    && expected.kind.FileKind? && record.Some? && record.value in kept && record.value in dest
    && !FileAt(dest, record.value, expected.size, expected.blake3, digest)
  }

  // Nothing on disk stands in the way of continuing this offer.
  ghost predicate Resumable(own: Sidecars, dest: Destinations, kept: set<string>, expected: StoredOffer) {
    && NotYetThere(own, dest, kept, expected)
    && (own.metadata.Some? ==>
      own.metadata.value == expected && (own.part.Some? ==> |own.part.value.data| <= expected.size))
  }

  // What is at a destination on record decides what becomes of its offer.
  lemma RecordedThreeWays(own: Sidecars, dest: Destinations, kept: set<string>, expected: StoredOffer, digest: Digest)
    requires RecordsOk(own) && expected.kind.FileKind?
    requires NameOnRecord(own, expected).Some? && NameOnRecord(own, expected).value in kept
    ensures FileIntact(own, dest, kept, expected, digest) <==>
      !FileOccupied(own, dest, kept, expected, digest) && !NotYetThere(own, dest, kept, expected)
    ensures FileOccupied(own, dest, kept, expected, digest) ==> !NotYetThere(own, dest, kept, expected)
  {
  }

  // The record on disk belongs to another offer.
  ghost predicate OtherOnRecord(own: Sidecars, expected: StoredOffer) {
    if own.done.Some? then own.done.value.offer != expected
    else if own.commit.Some? then own.commit.value.offer != expected
    else own.metadata.Some? && own.metadata.value != expected
  }

  method Prepare(disk: Workspace, offer: TransferOffer) returns (r: Result<PrepareOutcome, CoreError>)
    requires RecordsOk(disk.own)
    modifies disk`dest, disk`budget, disk`others, disk`history, disk`own
    ensures r == Failure(Stopped) ==> disk.budget == 0
    ensures old(disk.budget) <= disk.budget + 20
    ensures Undisturbed(disk)
    ensures PrepareReaches(old(disk.own), Stored(offer), disk.own)
    ensures r.Success? && r.value.Complete? ==>
      CompleteOk(disk.own, disk.history, |old(disk.history)|, disk.digest, Stored(offer), r.value.completed)
      && (r.value.completed.destination in disk.kept ==>
          FileAt(disk.dest, r.value.completed.destination, offer.size, offer.blake3, disk.digest))
    ensures r.Success? && r.value.Resume? ==> ResumeOk(old(disk.own), disk.own, Stored(offer), r.value.offset)
    // What is not an acceptable offer of a file is refused, and nothing changes.
    ensures !OfferOk(offer, disk.authentic) ==> r == Failure(InvalidOffer) && disk.own == old(disk.own)
    ensures OfferOk(offer, disk.authentic) && !offer.kind.FileKind? ==>
      r == Failure(WrongKind) && disk.own == old(disk.own)
    // Another offer on record is not disturbed.
    ensures OtherOnRecord(old(disk.own), Stored(offer)) ==> r.Failure? && disk.own == old(disk.own)
    // An intact destination on record is always completed with.
    ensures FileIntact(old(disk.own), old(disk.dest), disk.kept, Stored(offer), disk.digest) ==>
      && (OfferOk(offer, disk.authentic) ==>
        || r == Success(Complete(CompletedTransfer(ReceiptOf(Stored(offer)),
                                                   NameOnRecord(old(disk.own), Stored(offer)).value)))
        || r == Failure(Stopped))
      && KeptOnRecord(old(disk.own), disk.own)
    // Something else there is always refused, and nothing changes.
    ensures FileOccupied(old(disk.own), old(disk.dest), disk.kept, Stored(offer), disk.digest) ==>
      r.Failure? && disk.own == old(disk.own)
    // A destination on record that is free does not stand in the way; a record that it is done is dropped.
    ensures old(NotYetThere(disk.own, disk.dest, disk.kept, Stored(offer))) ==>
      && (disk.own.done == old(disk.own.done) || disk.own.done.None?) && disk.own.commit == old(disk.own.commit)
      && RecordsStay(old(disk.own), disk.own) && !(r.Success? && r.value.Complete?)
    ensures old(Resumable(disk.own, disk.dest, disk.kept, Stored(offer)))
            && OfferOk(offer, disk.authentic) && offer.kind.FileKind? ==>
      (r.Success? && r.value.Resume?) || r == Failure(Stopped)
  {
    var expected := Stored(offer);
    if !OfferOk(offer, disk.authentic) {
      r := Failure(InvalidOffer);
    } else if !offer.kind.FileKind? {
      r := Failure(WrongKind);
    } else {
      var replayed := ReplayDone(disk, expected);
      if replayed.Failure? {
        r := Failure(replayed.error);
      } else if replayed.value.Some? {
        r := Success(Complete(replayed.value.value));
      } else {
        ghost var from := |disk.history|;
        r := PrepareUnfinished(disk, expected);
        if r.Success? && r.value.Complete? {
          FileCheckedLater(disk.history, disk.history, from, |old(disk.history)|, expected,
                           r.value.completed.destination, disk.digest);
        }
      }
    }
  }

  // The recorded receipt, if its destination is still there; a record without one is dropped.
  method ReplayDone(disk: Workspace, expected: StoredOffer) returns (r: Result<Option<CompletedTransfer>, CoreError>)
    requires RecordsOk(disk.own) && expected.kind.FileKind?
    modifies disk`dest, disk`budget, disk`others, disk`history, disk`own
    ensures r == Failure(Stopped) ==> disk.budget == 0
    ensures old(disk.budget) <= disk.budget + 5
    ensures Undisturbed(disk)
    ensures disk.own == old(disk.own) || (SameDone(old(disk.own), expected) && disk.own == old(disk.own).(done := None))
    ensures r.Success? && r.value.Some? ==>
      && CompleteOk(disk.own, disk.history, |old(disk.history)|, disk.digest, expected, r.value.value)
      && (r.value.value.destination in disk.kept ==>
          FileAt(disk.dest, r.value.value.destination, expected.size, expected.blake3, disk.digest))
    ensures r == Success(None) ==>
      disk.own == old(disk.own).(done := None) && (old(disk.own.done).Some? ==> SameDone(old(disk.own), expected))
    ensures old(disk.own.done).None? ==> r == Success(None) || r == Failure(Stopped)
    ensures var done := old(disk.own.done);
      SameDone(old(disk.own), expected) && done.value.destination in disk.kept ==>
        var intact := FileAt(old(disk.dest), done.value.destination, expected.size, expected.blake3, disk.digest);
        && (r != Failure(Stopped) ==>
          && (r == Success(Some(CompletedTransfer(ReceiptOf(expected), done.value.destination))) <==> intact)
          && (r == Success(None) <==> done.value.destination !in old(disk.dest)))
        && (done.value.destination in old(disk.dest) ==> disk.own == old(disk.own))
  {
    var found := FindDone(disk, expected);
    if found == Success(None) && disk.own.done.Some? {
      var removed := disk.Update([disk.own.(done := None)]);
      r := if removed.Success? then Success(None) else Failure(removed.error);
    } else {
      r := found;
    }
  }

  // The done record, if there is one of this offer, with its destination checked.
  method FindDone(disk: Workspace, expected: StoredOffer) returns (r: Result<Option<CompletedTransfer>, CoreError>)
    requires RecordsOk(disk.own) && expected.kind.FileKind?
    modifies disk`dest, disk`budget, disk`others, disk`history
    ensures r == Failure(Stopped) ==> disk.budget == 0
    ensures old(disk.budget) <= disk.budget + 4
    ensures Undisturbed(disk)
    ensures r.Success? && r.value.Some? ==>
      && CompleteOk(disk.own, disk.history, |old(disk.history)|, disk.digest, expected, r.value.value)
      && (r.value.value.destination in disk.kept ==>
          FileAt(disk.dest, r.value.value.destination, expected.size, expected.blake3, disk.digest))
    ensures r == Success(None) && disk.own.done.Some? ==> SameDone(disk.own, expected)
    ensures disk.own.done.None? ==> r == Success(None) || r == Failure(Stopped)
    ensures var done := disk.own.done;
      SameDone(disk.own, expected) && done.value.destination in disk.kept && r != Failure(Stopped) ==>
        && (r == Success(Some(CompletedTransfer(ReceiptOf(expected), done.value.destination)))
            <==> FileAt(old(disk.dest), done.value.destination, expected.size, expected.blake3, disk.digest))
        && (r == Success(None) <==> done.value.destination !in old(disk.dest))
  {
    var found := disk.Call(); // read the done record
    if found.Failure? {
      r := Failure(found.error);
    } else if disk.own.done.None? {
      r := Success(None);
    } else if expected != disk.own.done.value.offer {
      r := Failure(Reused);
    } else {
      ghost var from := |disk.history|;
      r := ValidateCompleted(disk, disk.own.done.value);
      if r.Success? && r.value.Some? {
        FileCheckedLater(disk.history, disk.history, from, |old(disk.history)|, expected, r.value.value.destination,
                         disk.digest);
      }
    }
  }

  ghost predicate SameDone(own: Sidecars, expected: StoredOffer) {
    own.done.Some? && own.done.value.offer == expected
  }

  method ValidateCompleted(disk: Workspace, done: DoneRecord) returns (r: Result<Option<CompletedTransfer>, CoreError>)
    modifies disk`dest, disk`budget, disk`others, disk`history
    ensures r == Failure(Stopped) ==> disk.budget == 0
    ensures old(disk.budget) <= disk.budget + 3
    ensures Undisturbed(disk)
    ensures r.Success? && r.value.Some? ==>
      && r.value.value == CompletedTransfer(done.receipt, done.destination)
      && FileChecked(disk.history, |old(disk.history)|, done.destination, done.receipt.size, done.receipt.blake3,
                     disk.digest)
      && (done.destination in disk.kept ==>
           FileAt(disk.dest, done.destination, done.receipt.size, done.receipt.blake3, disk.digest))
    ensures ValidDestinationName(done.destination) && done.destination in disk.kept && r != Failure(Stopped) ==>
      && (r == Success(Some(CompletedTransfer(done.receipt, done.destination)))
          <==> FileAt(old(disk.dest), done.destination, done.receipt.size, done.receipt.blake3, disk.digest))
      && (r == Success(None) <==> done.destination !in old(disk.dest))
  {
    var present :- CheckDestination(disk, done.destination, done.receipt.size, done.receipt.blake3);
    return Success(if present then Some(CompletedTransfer(done.receipt, done.destination)) else None);
  }

  // `prepare` from the point where no done record stands in the way.
  method PrepareUnfinished(disk: Workspace, expected: StoredOffer) returns (r: Result<PrepareOutcome, CoreError>)
    requires RecordsOk(disk.own) && disk.own.done.None? && expected.kind.FileKind?
    modifies disk`dest, disk`budget, disk`others, disk`history, disk`own
    ensures r == Failure(Stopped) ==> disk.budget == 0
    ensures old(disk.budget) <= disk.budget + 15
    ensures Undisturbed(disk)
    ensures UnfinishedReaches(old(disk.own), expected, disk.own)
    ensures r.Success? && r.value.Complete? ==>
      CompleteOk(disk.own, disk.history, |old(disk.history)|, disk.digest, expected, r.value.completed)
      && (r.value.completed.destination in disk.kept ==>
          FileAt(disk.dest, r.value.completed.destination, expected.size, expected.blake3, disk.digest))
    ensures r.Success? && r.value.Resume? ==> ResumeOk(old(disk.own), disk.own, expected, r.value.offset)
    ensures OtherOnRecord(old(disk.own), expected) ==> r.Failure? && disk.own == old(disk.own)
    ensures FileIntact(old(disk.own), old(disk.dest), disk.kept, expected, disk.digest) ==>
      && (r == Success(Complete(CompletedTransfer(ReceiptOf(expected), NameOnRecord(old(disk.own), expected).value)))
          || r == Failure(Stopped))
      && KeptOnRecord(old(disk.own), disk.own)
    ensures FileOccupied(old(disk.own), old(disk.dest), disk.kept, expected, disk.digest) ==>
      r.Failure? && disk.own == old(disk.own)
    ensures old(FreeToCommit(disk.own, disk.dest, disk.kept, expected)) ==>
      && disk.own.done.None? && disk.own.commit == old(disk.own.commit)
      && RecordsStay(old(disk.own), disk.own) && !(r.Success? && r.value.Complete?)
    ensures old(Resumable(disk.own, disk.dest, disk.kept, expected)) ==>
      (r.Success? && r.value.Resume?) || r == Failure(Stopped)
  {
    var recovered := FindFileCommit(disk, expected);
    if recovered.Failure? {
      r := Failure(recovered.error);
    } else if recovered.value.Some? {
      r := Success(Complete(recovered.value.value));
    } else {
      var offset := OpenPart(disk, expected);
      r := if offset.Success? then Success(Resume(offset.value)) else Failure(offset.error);
    }
  }

  // The commit record, if there is one, recovered.
  method FindFileCommit(disk: Workspace, expected: StoredOffer)
    returns (r: Result<Option<CompletedTransfer>, CoreError>)
    requires RecordsOk(disk.own) && disk.own.done.None? && expected.kind.FileKind?
    modifies disk`dest, disk`budget, disk`others, disk`history, disk`own
    ensures r == Failure(Stopped) ==> disk.budget == 0
    ensures old(disk.budget) <= disk.budget + 8
    ensures Undisturbed(disk)
    ensures disk.own == old(disk.own)
         || (SameCommit(old(disk.own), expected) && RecoverReaches(old(disk.own), old(disk.own.commit).value, disk.own))
    ensures r.Success? && r.value.Some? ==>
      && CompleteOk(disk.own, disk.history, |old(disk.history)|, disk.digest, expected, r.value.value)
      && (r.value.value.destination in disk.kept ==>
          FileAt(disk.dest, r.value.value.destination, expected.size, expected.blake3, disk.digest))
    ensures r == Success(None) ==>
      disk.own == old(disk.own) && (disk.own.commit.Some? ==> SameCommit(disk.own, expected))
    ensures old(FreeToCommit(disk.own, disk.dest, disk.kept, expected)) ==>
      (r == Success(None) || r == Failure(Stopped)) && disk.own == old(disk.own)
    ensures var commit := old(disk.own.commit);
      SameCommit(old(disk.own), expected) && commit.value.destination in disk.kept ==>
        var intact := FileAt(old(disk.dest), commit.value.destination, expected.size, expected.blake3, disk.digest);
        && (r != Failure(Stopped) ==>
          && (r == Success(Some(CompletedTransfer(ReceiptOf(expected), commit.value.destination))) <==> intact)
          && (r == Success(None) <==> commit.value.destination !in old(disk.dest)))
        && (!intact ==> disk.own == old(disk.own))
  {
    var found := disk.Call(); // read the commit record
    if found.Failure? {
      r := Failure(found.error);
    } else if disk.own.commit.None? {
      r := Success(None);
    } else if expected != disk.own.commit.value.offer {
      r := Failure(Reused);
    } else {
      ghost var from := |disk.history|;
      r := RecoverCommit(disk, disk.own.commit.value);
      if r.Success? && r.value.Some? {
        FileCheckedLater(disk.history, disk.history, from, |old(disk.history)|, expected, r.value.value.destination,
                         disk.digest);
      }
    }
  }

  ghost predicate SameCommit(own: Sidecars, expected: StoredOffer) {
    own.commit.Some? && own.commit.value.offer == expected
  }

  // Wherever `prepare` stops, the sidecars stay consistent, bytes kept for this offer were written
  // for this offer, and a destination on record stays on record.
  lemma PrepareKeeps(before: Sidecars, expected: StoredOffer, after: Sidecars)
    requires SidecarsOk(before) && expected.kind.FileKind? && PrepareReaches(before, expected, after)
    ensures SidecarsOk(after)
    ensures after.metadata == Some(expected) && after.part.Some? ==>
      && after.part.value.writers <= {expected}
      && (after.part.value.data != [] ==> after.part == before.part && before.metadata == Some(expected))
  {
    var cleared := before.(done := None);
    if after != before {
      if before.commit.Some? && RecoverReaches(cleared, before.commit.value, after) {
        RecoverKeeps(cleared, before.commit.value, after);
      } else {
        OpenKeeps(cleared, expected, after);
      }
    }
  }

  lemma RecoverKeeps(before: Sidecars, commit: CommitRecord, after: Sidecars)
    requires SidecarsOk(before) && before.done.None? && before.commit == Some(commit) && commit.offer.kind.FileKind?
    requires RecoverReaches(before, commit, after)
    ensures SidecarsOk(after) && CommitRecorded(after, commit.offer, commit.destination)
    ensures after.metadata.Some? ==> after.metadata == before.metadata
    ensures after.part.Some? ==> after.part == before.part
  {
    var s1 := before.(done := Some(DoneFor(commit.offer, commit.destination)));
    assert RecordsOk(s1) && Bound(s1);
    var s3 := s1.(part := None, metadata := None);
    assert RecordsOk(s3) && Bound(s3);
    if after == Recovered(before, commit) {
      assert after == s3.(commit := None);
    }
  }

  lemma OpenKeeps(before: Sidecars, expected: StoredOffer, after: Sidecars)
    requires SidecarsOk(before) && expected.kind.FileKind? && OpenReaches(before, expected, after)
    ensures SidecarsOk(after) && after.done == before.done && after.commit == before.commit
    ensures after.metadata == Some(expected) && after.part.Some? ==>
      after.part.value.writers <= {expected}
      && (after.part.value.data == [] || (after.part == before.part && before.metadata == Some(expected)))
  {
  }

  // ---------- receiving bytes ----------

  const TRANSFER_BUFFER_SIZE: nat := 262_144

  // `bytes` appended to the part on behalf of `offer`.
  function WithBytes(own: Sidecars, offer: StoredOffer, bytes: seq<byte>): Sidecars
    requires own.part.Some?
  {
    if bytes == [] then own
    else own.(part := Some(PartFile(own.part.value.data + bytes, own.part.value.writers + {offer})))
  }

  lemma WithBytesTwice(own: Sidecars, offer: StoredOffer, s: seq<byte>, k: nat, read: nat, m: nat)
    requires own.part.Some? && k + read <= |s| && m <= read
    ensures WithBytes(WithBytes(own, offer, s[..k]), offer, s[k..][..read][..m]) == WithBytes(own, offer, s[..k + m])
  {
    var a, b := s[..k], s[k..][..read][..m];
    assert a + b == s[..k + m] && [] + b == b && a + [] == a;
    var PartFile(data, writers) := own.part.value;
    assert (data + a) + b == data + (a + b);
    assert (writers + {offer}) + {offer} == writers + {offer};
  }

  // One write; if the process stops during it, any beginning of the chunk may have been written.
  method Append(disk: Workspace, offer: StoredOffer, chunk: seq<byte>, torn: nat)
    returns (r: Result<(), CoreError>, ghost written: nat)
    requires disk.own.part.Some?
    modifies disk`dest, disk`budget, disk`others, disk`history, disk`own
    ensures r == Failure(Stopped) ==> disk.budget == 0
    ensures old(disk.budget) <= disk.budget + 1
    ensures Undisturbed(disk)
    ensures written <= |chunk| && disk.own == WithBytes(old(disk.own), offer, chunk[..written])
    ensures r.Success? ==> written == |chunk|
    ensures r.Failure? ==> r.error == Stopped
  {
    r := disk.Call();
    var n := if r.Success? then |chunk| else torn % (|chunk| + 1);
    disk.own := WithBytes(disk.own, offer, chunk[..n]);
    written := n;
  }

  ghost predicate Increasing(progress: seq<nat>) {
    forall i, j :: 0 <= i < j < |progress| ==> progress[i] < progress[j]
  }

  // Progress only grows and never passes the total.
  ghost predicate ProgressOk(progress: seq<nat>, total: nat) {
    Increasing(progress) && forall i :: 0 <= i < |progress| ==> progress[i] <= total
  }

  // The read loop: whatever the chunks, the part grows by exactly the bytes taken off the stream.
  method ReceiveBytes(disk: Workspace, offer: StoredOffer, incoming: seq<byte>, readSize: nat -> nat, torn: nat)
    returns (r: Result<(), CoreError>, progress: seq<nat>, ghost taken: nat)
    requires disk.own.part.Some? && |disk.own.part.value.data| <= offer.size
    modifies disk`dest, disk`budget, disk`others, disk`history, disk`own
    ensures r == Failure(Stopped) ==> disk.budget == 0
    ensures old(disk.budget) <= disk.budget + |incoming| + 2
    ensures Undisturbed(disk)
    ensures taken <= |incoming| && disk.own == WithBytes(old(disk.own), offer, incoming[..taken])
    ensures var offset := |old(disk.own.part).value.data|;
      && offset + taken <= offer.size
      && (r.Success? ==> offset + taken == offer.size && taken == |incoming|)
      && (r.Failure? ==> r.error in {Stopped, SenderDisconnected, TooManyBytes})
      && (r == Failure(SenderDisconnected) ==> taken == |incoming| && offset + taken < offer.size)
      && (r == Failure(TooManyBytes) ==> offset + taken == offer.size && taken < |incoming|)
      && Increasing(progress) && (progress == [] ==> r == Failure(Stopped))
      && (progress != [] ==> progress[0] == offset)
      && (forall i :: 0 <= i < |progress| ==> progress[i] <= offset + taken)
      && (r.Success? ==> progress[|progress| - 1] == offer.size)
  {
    var offset := |disk.own.part.value.data|;
    ghost var start := disk.own;
    progress, taken := [], 0;
    var _ :- disk.Call(); // open for appending
    var received := offset;
    progress := [received];
    var rest := incoming;
    while received < offer.size
      invariant Undisturbed(disk) && old(disk.budget) <= disk.budget + taken + 1
      invariant taken <= |incoming| && rest == incoming[taken..] && received == offset + taken <= offer.size
      invariant disk.own == WithBytes(start, offer, incoming[..taken])
      invariant Increasing(progress) && progress != [] && progress[0] == offset && progress[|progress| - 1] == received
      invariant forall i :: 0 <= i < |progress| ==> progress[i] <= received
      decreases offer.size - received
    {
      var wanted := if offer.size - received < TRANSFER_BUFFER_SIZE then offer.size - received
                    else TRANSFER_BUFFER_SIZE;
      var available := if |rest| < wanted then |rest| else wanted;
      if available == 0 {
        var _ :- disk.Call(); // sync_data
        return Failure(SenderDisconnected), progress, taken;
      }
      var read := 1 + readSize(received) % available;
      ghost var written;
      r, written := Append(disk, offer, rest[..read], torn);
      WithBytesTwice(start, offer, incoming, taken, read, written);
      taken := taken + written;
      if r.Failure? {
        return r, progress, taken;
      }
      rest := rest[read..];
      received := received + read;
      progress := progress + [received];
    }
    if rest != [] {
      return Failure(TooManyBytes), progress, taken;
    }
    var _ :- disk.Call(); // sync_all
    return Success(()), progress, taken;
  }
}

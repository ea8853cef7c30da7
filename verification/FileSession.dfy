// One receiving session for a file: start or resume, fill the part, commit it.
module FileSession {
  import opened Wrappers
  import opened Text
  import opened Names
  import opened FolderTree
  import opened Offers
  import opened Disk
  import opened FileTransfer
  import opened FileCommit

  // Consistent records, what belongs to folders untouched, and no metadata but what was there or `expected`.
  ghost predicate FileKept(before: Sidecars, after: Sidecars, expected: StoredOffer) {
    && SidecarsOk(after) && after.staging == before.staging && after.manifest == before.manifest
    && (after.metadata.Some? ==> after.metadata == before.metadata || after.metadata == Some(expected))
  }

  // After `finalize`, wherever it stopped: consistent records, and no bytes that were not there before.
  ghost predicate FinalizeKept(before: Sidecars, after: Sidecars) {
    && SidecarsOk(after) && after.staging == before.staging && after.manifest == before.manifest
    && (after.metadata.Some? ==> after.metadata == before.metadata)
    && (after.part.Some? ==> after.part == before.part)
  }

  lemma FinalizeKeeps(before: Sidecars, expected: StoredOffer, name: string, after: Sidecars)
    requires SidecarsOk(before) && expected.kind.FileKind? && before.done.None?
    requires DiscardReaches(before, after)
             || (ValidDestinationName(name) && CommitReaches(before, expected, name, after))
    ensures FinalizeKept(before, after)
  {
    if !DiscardReaches(before, after) {
      var committed := before.(commit := Some(CommitFor(expected, name)));
      if ConcludeReaches(committed, expected, name, after) {
        ConcludeKeeps(committed, expected, name, after);
      } else {
        ConcludeKeeps(committed.(part := None), expected, name, after);
      }
    }
  }

  lemma ConcludeKeeps(before: Sidecars, expected: StoredOffer, name: string, after: Sidecars)
    requires SidecarsOk(before) && expected.kind.FileKind? && before.done.None?
    requires before.commit == Some(CommitFor(expected, name)) && ConcludeReaches(before, expected, name, after)
    ensures FinalizeKept(before, after)
  {
    var s1 := before.(done := Some(DoneFor(expected, name)));
    assert RecordsOk(s1) && Bound(s1);
    var s2 := s1.(metadata := None);
    assert RecordsOk(s2) && Bound(s2);
    if after != before && after != s1 && after != s2 {
      assert after == s2.(commit := None);
    }
  }

  lemma BytesKeep(before: Sidecars, expected: StoredOffer, bytes: seq<byte>)
    requires SidecarsOk(before) && before.metadata == Some(expected) && before.part.Some? && expected.kind.FileKind?
    ensures SidecarsOk(WithBytes(before, expected, bytes))
  {
  }

  lemma BytesOf(before: Sidecars, expected: StoredOffer, incoming: seq<byte>, taken: nat)
    requires before.part.Some? && taken <= |incoming|
    ensures var data := WithBytes(before, expected, incoming[..taken]).part.value.data;
      && data <= before.part.value.data + incoming
      && (taken == |incoming| ==> data == before.part.value.data + incoming)
  {
    var data := before.part.value.data;
    assert data + incoming[..taken] <= data + incoming;
    assert data + [] == data && incoming[..|incoming|] == incoming;
  }

  // Data that is the offered if it is as long.
  ghost predicate Plausible(data: seq<byte>, expected: StoredOffer, digest: Digest) {
    |data| == expected.size ==> digest(data) == expected.blake3
  }

  // The part after some of `incoming` was appended to it.
  ghost predicate Filling(before: Sidecars, after: Sidecars, incoming: seq<byte>)
    requires before.part.Some?
  {
    && after == before.(part := after.part) && after.part.Some?
    && after.part.value.data <= before.part.value.data + incoming
  }

  method FillPart(disk: Workspace, expected: StoredOffer, incoming: seq<byte>, readSize: nat -> nat, torn: nat)
    returns (r: Result<(), CoreError>, progress: seq<nat>)
    requires SidecarsOk(disk.own) && disk.own.metadata == Some(expected) && disk.own.part.Some?
             && expected.kind.FileKind?
    requires |disk.own.part.value.data| <= expected.size
    modifies disk`dest, disk`budget, disk`others, disk`history, disk`own
    ensures r == Failure(Stopped) ==> disk.budget == 0
    ensures old(disk.budget) <= disk.budget + |incoming| + 2
    ensures Undisturbed(disk)
    ensures SidecarsOk(disk.own) && Filling(old(disk.own), disk.own, incoming)
    ensures r.Success? ==> disk.own.part.value.data == old(disk.own.part).value.data + incoming
    ensures r.Failure? && r != Failure(Stopped) ==> |old(disk.own.part).value.data + incoming| != expected.size
    ensures ProgressOk(progress, expected.size)
  {
    ghost var start := disk.own;
    ghost var taken;
    r, progress, taken := ReceiveBytes(disk, expected, incoming, readSize, torn);
    BytesKeep(start, expected, incoming[..taken]);
    BytesOf(start, expected, incoming, taken);
  }

  // The calls a session needs at most, for that many bytes and with that many of its names taken.
  function FileCalls(bytes: nat, taken: nat): nat {
    bytes + taken + 38
  }

  // The rest of a session once a part is ready to be appended to.
  method FinishFile(disk: Workspace, expected: StoredOffer, incoming: seq<byte>, readSize: nat -> nat, torn: nat)
    returns (r: Result<CompletedTransfer, CoreError>, name: string, progress: seq<nat>, ghost moved: Option<Node>)
    requires SidecarsOk(disk.own) && disk.own.metadata == Some(expected) && disk.own.part.Some? && disk.own.done.None?
    requires |disk.own.part.value.data| <= expected.size
    requires IsSafeName(expected.filename) && expected.kind.FileKind?
    modifies disk`dest, disk`budget, disk`others, disk`history, disk`own, disk`created
    ensures r == Failure(Stopped) ==> disk.budget == 0
    ensures NamesKept(disk.kept, expected.filename) ==>
      old(disk.budget) <= disk.budget + NamesTaken(old(disk.dest), expected.filename) + |incoming| + 18
    ensures FileKept(old(disk.own), disk.own, expected)
    ensures disk.own.metadata.Some? ==> disk.own.metadata.value == expected
    ensures disk.own.part.Some? ==>
      disk.own.part.value.data <= old(disk.own.part).value.data + incoming
    ensures old(disk.history) <= disk.history && MovedTo(old(disk.dest), disk.dest, disk.kept, name, moved)
    ensures disk.created == CreatedBy(old(disk.created), name, moved)
    ensures moved.Some? ==>
      && moved.value == RegularFile(old(disk.own.part).value.data + incoming)
      && AsOffered(moved.value, expected, disk.digest)
      && CommitRecorded(disk.own, expected, name) && (name in disk.kept ==> r.Success? || r == Failure(Stopped))
    ensures r.Success? ==>
      && r.value == CompletedTransfer(ReceiptOf(expected), name)
      && CompleteOk(disk.own, disk.history, |old(disk.history)|, disk.digest, expected, r.value)
      && (name in disk.kept ==> FileAt(disk.dest, name, expected.size, expected.blake3, disk.digest))
    ensures ProgressOk(progress, expected.size)
    ensures NamesKept(disk.kept, expected.filename) && old(FreeToCommit(disk.own, disk.dest, disk.kept, expected)) ==>
      if moved.None? then NotYetThere(disk.own, disk.dest, disk.kept, expected) else name in disk.kept
    ensures NamesKept(disk.kept, expected.filename) && old(FreeToCommit(disk.own, disk.dest, disk.kept, expected))
            && moved.None?
            && Plausible(old(disk.own.part).value.data + incoming, expected, disk.digest) ==>
      RecordsStay(old(disk.own), disk.own)
    ensures NamesKept(disk.kept, expected.filename) && old(FreeToCommit(disk.own, disk.dest, disk.kept, expected))
            && |old(disk.own.part).value.data + incoming| == expected.size
            && disk.digest(old(disk.own.part).value.data + incoming) == expected.blake3 ==>
      && Landed(r, old(disk.own.commit), old(disk.dest), expected.filename, name)
      && (r.Success? ==> moved.Some?)
  {
    name, moved := "", None;
    ghost var dest, history := disk.dest, disk.history;
    var got;
    got, progress := FillPart(disk, expected, incoming, readSize, torn);
    ghost var filled, filledDest, filledHistory := disk.own, disk.dest, disk.history;
    StaysFree(filled, dest, filledDest, disk.kept, expected);
    if got.Failure? {
      r := Failure(got.error);
    } else {
      r, name, moved := Finalize(disk, expected);
      MovedOn(dest, filledDest, disk.dest, disk.kept, name, moved);
      LandedBefore(r, filled.commit, dest, filledDest, disk.kept, expected.filename, name);
      SameCandidates(dest, filledDest, disk.kept, expected.filename);
      FinalizeKeeps(filled, expected, name, disk.own);
      HistoryOn(history, filledHistory, disk.history);
      FileCheckedLater(disk.history, disk.history, |filledHistory|, |history|, expected, name, disk.digest);
    }
  }

  // What the sender sends once told where to resume, and how it arrives.
  datatype Stream = Stream(reply: nat -> seq<byte>, readSize: nat -> nat, torn: nat)

  // The bytes a session commits if everything the sender sends arrives.
  ghost function Assembled(own: Sidecars, expected: StoredOffer, stream: Stream): seq<byte> {
    var data := if own.metadata == Some(expected) && own.part.Some? then own.part.value.data else [];
    data + stream.reply(|data|)
  }

  // The bytes kept for an offer are those kept before the session, or a beginning of what it assembled.
  ghost predicate PartKept(before: Sidecars, after: Sidecars, expected: StoredOffer, assembled: seq<byte>) {
    after.metadata.Some? && after.part.Some? ==>
      || (after.metadata == before.metadata && after.part == before.part)
      || (after.metadata == Some(expected) && after.part.value.data <= assembled)
  }

  lemma PrepareSettles(before: Sidecars, expected: StoredOffer, after: Sidecars, assembled: seq<byte>)
    requires SidecarsOk(before) && expected.kind.FileKind? && PrepareReaches(before, expected, after)
    ensures FileKept(before, after, expected) && PartKept(before, after, expected, assembled)
  {
    PrepareKeeps(before, expected, after);
    var cleared := before.(done := None);
    if after != before {
      if before.commit.Some? && RecoverReaches(cleared, before.commit.value, after) {
        RecoverLeaves(cleared, before.commit.value, after);
      } else {
        OpenLeaves(cleared, expected, after, assembled);
      }
    }
  }

  lemma RecoverLeaves(before: Sidecars, commit: CommitRecord, after: Sidecars)
    requires RecoverReaches(before, commit, after)
    ensures after.staging == before.staging && after.manifest == before.manifest
    ensures after.metadata.Some? ==> after.metadata == before.metadata
    ensures after.part.Some? ==> after.part == before.part
  {
  }

  lemma OpenLeaves(before: Sidecars, expected: StoredOffer, after: Sidecars, assembled: seq<byte>)
    requires OpenReaches(before, expected, after)
    ensures after.staging == before.staging && after.manifest == before.manifest
    ensures after.metadata.Some? ==> after.metadata == before.metadata || after.metadata == Some(expected)
    ensures PartKept(before, after, expected, assembled)
  {
  }

  lemma RecordSettles(before: Sidecars, expected: StoredOffer, after: Sidecars)
    requires SidecarsOk(before) && expected.kind.FileKind?
    requires KeptOnRecord(before, after) && NameOnRecord(before, expected).Some?
    ensures CommitRecorded(after, expected, NameOnRecord(before, expected).value)
  {
    if after != before {
      RecoverKeeps(before, before.commit.value, after);
    }
  }

  lemma ResumeAssembles(before: Sidecars, expected: StoredOffer, after: Sidecars, offset: nat, stream: Stream)
    requires SidecarsOk(before) && ResumeOk(before, after, expected, offset)
    ensures after.part.value.data + stream.reply(offset) == Assembled(before, expected, stream)
    ensures after.metadata == Some(expected) && after.done.None? && after.commit == before.commit
    ensures !OtherOnRecord(before, expected)
  {
  }

  // `prepare`, with what the rest of the session needs to know of it.
  method StartFile(disk: Workspace, offer: TransferOffer, ghost stream: Stream)
    returns (r: Result<PrepareOutcome, CoreError>)
    requires SidecarsOk(disk.own)
    modifies disk`dest, disk`budget, disk`others, disk`history, disk`own
    ensures r == Failure(Stopped) ==> disk.budget == 0
    ensures old(disk.budget) <= disk.budget + 20
    ensures Undisturbed(disk)
    ensures FileKept(old(disk.own), disk.own, Stored(offer))
    ensures PartKept(old(disk.own), disk.own, Stored(offer), old(Assembled(disk.own, Stored(offer), stream)))
    ensures r.Success? && r.value.Complete? ==>
      && r.value.completed.receipt == ReceiptOf(Stored(offer))
      && CompleteOk(disk.own, disk.history, |old(disk.history)|, disk.digest, Stored(offer), r.value.completed)
      && (r.value.completed.destination in disk.kept ==>
          FileAt(disk.dest, r.value.completed.destination, offer.size, offer.blake3, disk.digest))
    ensures r.Success? && r.value.Resume? ==>
      && disk.own.metadata == Some(Stored(offer)) && disk.own.done.None? && disk.own.commit == old(disk.own.commit)
      && disk.own.part.Some? && |disk.own.part.value.data| == r.value.offset <= offer.size
      && disk.own.part.value.data + stream.reply(r.value.offset) == old(Assembled(disk.own, Stored(offer), stream))
      && IsSafeName(Stored(offer).filename) && offer.kind.FileKind?
    ensures old(OtherOnRecord(disk.own, Stored(offer))) || !offer.kind.FileKind? ==>
      disk.own == old(disk.own) && r.Failure?
    ensures !OfferOk(offer, disk.authentic) ==> disk.own == old(disk.own) && r == Failure(InvalidOffer)
    ensures old(FileIntact(disk.own, disk.dest, disk.kept, Stored(offer), disk.digest)) ==>
      var record := old(NameOnRecord(disk.own, Stored(offer))).value;
      && CommitRecorded(disk.own, Stored(offer), record)
      && (r.Success? ==> r.value.Complete? && r.value.completed.destination == record)
      && (r.Failure? && OfferOk(offer, disk.authentic) ==> r.error == Stopped)
    ensures old(FileOccupied(disk.own, disk.dest, disk.kept, Stored(offer), disk.digest)) ==>
      r.Failure? && disk.own == old(disk.own)
    ensures old(NotYetThere(disk.own, disk.dest, disk.kept, Stored(offer))) ==>
      && NotYetThere(disk.own, disk.dest, disk.kept, Stored(offer)) && RecordsStay(old(disk.own), disk.own)
      && !(r.Success? && r.value.Complete?)
    ensures old(Resumable(disk.own, disk.dest, disk.kept, Stored(offer)))
            && OfferOk(offer, disk.authentic) && offer.kind.FileKind? ==>
      (r.Success? && r.value.Resume?) || r == Failure(Stopped)
  {
    ghost var before, dest := disk.own, disk.dest;
    r := Prepare(disk, offer);
    StaysAway(disk.own, dest, disk.dest, disk.kept, Stored(offer));
    if offer.kind.FileKind? {
      PrepareSettles(before, Stored(offer), disk.own, Assembled(before, Stored(offer), stream));
      if KeptOnRecord(before, disk.own) && NameOnRecord(before, Stored(offer)).Some? {
        RecordSettles(before, Stored(offer), disk.own);
      }
    }
    if r.Success? && r.value.Resume? {
      ResumeAssembles(before, Stored(offer), disk.own, r.value.offset, stream);
      SafeFilenameIsSafe(offer.filename);
    }
  }

  method ReceiveFile(disk: Workspace, offer: TransferOffer, stream: Stream)
    returns (r: Result<CompletedTransfer, CoreError>, name: string, progress: seq<nat>, ghost moved: Option<Node>)
    requires SidecarsOk(disk.own)
    modifies disk`dest, disk`budget, disk`others, disk`history, disk`own, disk`created
    ensures r == Failure(Stopped) ==> disk.budget == 0
    ensures NamesKept(disk.kept, SafeFilename(offer.filename)) ==>
      old(disk.budget) <= disk.budget
          + FileCalls(|old(Assembled(disk.own, Stored(offer), stream))|,
                      NamesTaken(old(disk.dest), SafeFilename(offer.filename)))
    ensures FileKept(old(disk.own), disk.own, Stored(offer))
    ensures PartKept(old(disk.own), disk.own, Stored(offer), old(Assembled(disk.own, Stored(offer), stream)))
    ensures old(disk.history) <= disk.history && MovedTo(old(disk.dest), disk.dest, disk.kept, name, moved)
    ensures disk.created == CreatedBy(old(disk.created), name, moved)
    ensures moved.Some? ==>
      && moved.value == RegularFile(old(Assembled(disk.own, Stored(offer), stream)))
      && AsOffered(moved.value, Stored(offer), disk.digest)
      && CommitRecorded(disk.own, Stored(offer), name) && (name in disk.kept ==> r.Success? || r == Failure(Stopped))
    ensures r.Success? ==>
      && r.value == CompletedTransfer(ReceiptOf(Stored(offer)), name)
      && CompleteOk(disk.own, disk.history, |old(disk.history)|, disk.digest, Stored(offer), r.value)
      && (name in disk.kept ==> FileAt(disk.dest, name, offer.size, offer.blake3, disk.digest))
    ensures ProgressOk(progress, offer.size)
    // Another offer under the same id changes nothing.
    ensures old(OtherOnRecord(disk.own, Stored(offer))) || !offer.kind.FileKind? ==>
      disk.own == old(disk.own) && moved.None? && r.Failure?
    ensures !OfferOk(offer, disk.authentic) ==>
      disk.own == old(disk.own) && moved.None? && r == Failure(InvalidOffer)
    // A destination on record that nobody touched is completed with, and nothing else is created.
    ensures old(FileIntact(disk.own, disk.dest, disk.kept, Stored(offer), disk.digest)) ==>
      var record := old(NameOnRecord(disk.own, Stored(offer))).value;
      && moved.None? && CommitRecorded(disk.own, Stored(offer), record)
      && (if r.Success? then name == record else OfferOk(offer, disk.authentic) ==> r.error == Stopped)
    // Something else at a destination on record is refused, and nothing changes.
    ensures old(FileOccupied(disk.own, disk.dest, disk.kept, Stored(offer), disk.digest)) ==>
      disk.own == old(disk.own) && moved.None? && r.Failure?
    // Until something is renamed, no other destination is recorded and the recorded one stays free.
    ensures NamesKept(disk.kept, SafeFilename(offer.filename))
            && old(NotYetThere(disk.own, disk.dest, disk.kept, Stored(offer))) ==>
      if moved.None? then NotYetThere(disk.own, disk.dest, disk.kept, Stored(offer)) else name in disk.kept
    ensures NamesKept(disk.kept, SafeFilename(offer.filename))
            && old(NotYetThere(disk.own, disk.dest, disk.kept, Stored(offer))) && moved.None?
            && Plausible(old(Assembled(disk.own, Stored(offer), stream)), Stored(offer), disk.digest) ==>
      RecordsStay(old(disk.own), disk.own)
    // With a whole source and nobody else at its names, only a stop or 2^32 taken names keep it
    // from its destination.
    ensures NamesKept(disk.kept, SafeFilename(offer.filename))
            && old(Resumable(disk.own, disk.dest, disk.kept, Stored(offer)))
            && OfferOk(offer, disk.authentic) && offer.kind.FileKind?
            && |old(Assembled(disk.own, Stored(offer), stream))| == offer.size
            && disk.digest(old(Assembled(disk.own, Stored(offer), stream))) == offer.blake3 ==>
      && Landed(r, old(disk.own.commit), old(disk.dest), SafeFilename(offer.filename), name)
      && (r.Success? ==> moved.Some?)
  {
    name, moved := "", None;
    progress := [];
    ghost var dest, history := disk.dest, disk.history;
    var started := StartFile(disk, offer, stream);
    ghost var begunDest, begunHistory := disk.dest, disk.history;
    if started.Failure? {
      r := Failure(started.error);
    } else if started.value.Complete? {
      r, name := Success(started.value.completed), started.value.completed.destination;
    } else {
      ghost var commit := disk.own.commit;
      r, name, progress, moved := FinishFile(disk, Stored(offer), stream.reply(started.value.offset), stream.readSize,
                                             stream.torn);
      LandedBefore(r, commit, dest, begunDest, disk.kept, SafeFilename(offer.filename), name);
      SameCandidates(dest, begunDest, disk.kept, SafeFilename(offer.filename));
      HistoryOn(history, begunHistory, disk.history);
      FileCheckedLater(disk.history, disk.history, |begunHistory|, |history|, Stored(offer), name, disk.digest);
      MovedOn(dest, begunDest, disk.dest, disk.kept, name, moved);
    }
  }

  // ---------- an honest source ----------

  // The unchanged source files of some offers.
  type FileSources = map<StoredOffer, seq<byte>>

  // A part that could be resumed for one of them is a beginning of its source.
  ghost predicate PartOf(own: Sidecars, sources: FileSources) {
    own.metadata.Some? && own.metadata.value.kind.FileKind? && own.part.Some? && own.metadata.value in sources ==>
      own.part.value.data <= sources[own.metadata.value]
  }

  // An unchanged source sends what follows the offset it is given, as far as the stream gets.
  ghost predicate Honest(stream: Stream, expected: StoredOffer, source: seq<byte>) {
    && |source| == expected.size
    && forall k :: 0 <= k <= |source| ==> stream.reply(k) <= source[k..]
  }

  // An unchanged source whose whole remainder arrives.
  ghost predicate Whole(stream: Stream, expected: StoredOffer, source: seq<byte>) {
    && |source| == expected.size
    && forall k :: 0 <= k <= |source| ==> stream.reply(k) == source[k..]
  }

  lemma WholeSession(when: bool, before: Sidecars, expected: StoredOffer, stream: Stream, sources: FileSources)
    requires when ==> expected in sources && expected.kind.FileKind?
    requires when ==> PartOf(before, sources) && Whole(stream, expected, sources[expected])
    ensures when ==>
      Assembled(before, expected, stream) == sources[expected] && Honest(stream, expected, sources[expected])
  {
    if when {
      var data := if before.metadata == Some(expected) && before.part.Some? then before.part.value.data else [];
      assert data <= sources[expected];
      assert data + sources[expected][|data|..] == sources[expected];
    }
  }

  // A session that may commit commits the source itself, and leaves a beginning of it otherwise; a
  // session of another offer leaves what is kept for this one as it is.
  lemma HonestSession(when: bool, before: Sidecars, after: Sidecars, expected: StoredOffer, stream: Stream,
                      sources: FileSources)
    requires when ==> PartOf(before, sources) && expected.kind.FileKind?
    requires when && expected in sources ==> Honest(stream, expected, sources[expected])
    requires when ==> PartKept(before, after, expected, Assembled(before, expected, stream))
    ensures when ==> PartOf(after, sources)
    ensures when && expected in sources ==>
      && |Assembled(before, expected, stream)| <= expected.size
      && (|Assembled(before, expected, stream)| == expected.size ==>
           Assembled(before, expected, stream) == sources[expected])
  {
    if when && expected in sources {
      var data := if before.metadata == Some(expected) && before.part.Some? then before.part.value.data else [];
      assert data <= sources[expected];
      assert data + stream.reply(|data|) <= sources[expected];
    }
  }

  // A session that may come from one of the unchanged sources: `honest` says that it does, `whole`
  // that all of it arrives.
  method ReceiveFrom(disk: Workspace, offer: TransferOffer, stream: Stream, ghost sources: FileSources,
                     ghost honest: bool, ghost whole: bool)
    returns (r: Result<CompletedTransfer, CoreError>, name: string, ghost moved: Option<Node>)
    requires SidecarsOk(disk.own)
    requires honest ==>
      PartOf(disk.own, sources) && Stored(offer) in sources && Honest(stream, Stored(offer), sources[Stored(offer)])
    requires whole ==>
      && honest && OfferOk(offer, disk.authentic) && offer.kind.FileKind?
      && Whole(stream, Stored(offer), sources[Stored(offer)]) && disk.digest(sources[Stored(offer)]) == offer.blake3
    modifies disk`dest, disk`budget, disk`others, disk`history, disk`own, disk`created
    ensures r == Failure(Stopped) ==> disk.budget == 0
    ensures honest && offer.kind.FileKind? && NamesKept(disk.kept, SafeFilename(offer.filename)) ==>
      old(disk.budget) <= disk.budget + FileCalls(offer.size, NamesTaken(old(disk.dest), SafeFilename(offer.filename)))
    ensures FileKept(old(disk.own), disk.own, Stored(offer))
    ensures old(PartOf(disk.own, sources)) && (honest || Stored(offer) !in sources) ==> PartOf(disk.own, sources)
    ensures old(disk.history) <= disk.history && MovedTo(old(disk.dest), disk.dest, disk.kept, name, moved)
    ensures disk.created == CreatedBy(old(disk.created), name, moved)
    ensures moved.Some? ==>
      && AsOffered(moved.value, Stored(offer), disk.digest)
      && (honest ==> moved.value == RegularFile(sources[Stored(offer)]))
      && CommitRecorded(disk.own, Stored(offer), name) && (name in disk.kept ==> r.Success? || r == Failure(Stopped))
    ensures r.Success? ==>
      && r.value.destination == name
      && CompleteOk(disk.own, disk.history, |old(disk.history)|, disk.digest, Stored(offer), r.value)
      && (name in disk.kept ==> FileAt(disk.dest, name, offer.size, offer.blake3, disk.digest))
    ensures old(OtherOnRecord(disk.own, Stored(offer))) || !OfferOk(offer, disk.authentic) || !offer.kind.FileKind? ==>
      disk.own == old(disk.own) && moved.None? && r.Failure?
    ensures old(FileIntact(disk.own, disk.dest, disk.kept, Stored(offer), disk.digest)) ==>
      var record := old(NameOnRecord(disk.own, Stored(offer))).value;
      && moved.None? && CommitRecorded(disk.own, Stored(offer), record)
      && (if r.Success? then name == record else OfferOk(offer, disk.authentic) ==> r.error == Stopped)
    ensures old(FileOccupied(disk.own, disk.dest, disk.kept, Stored(offer), disk.digest)) ==>
      disk.own == old(disk.own) && moved.None? && r.Failure?
    ensures NamesKept(disk.kept, SafeFilename(offer.filename))
            && old(NotYetThere(disk.own, disk.dest, disk.kept, Stored(offer))) ==>
      if moved.None? then NotYetThere(disk.own, disk.dest, disk.kept, Stored(offer)) else name in disk.kept
    ensures NamesKept(disk.kept, SafeFilename(offer.filename))
            && old(NotYetThere(disk.own, disk.dest, disk.kept, Stored(offer))) && moved.None?
            && honest && Plausible(sources[Stored(offer)], Stored(offer), disk.digest) ==>
      RecordsStay(old(disk.own), disk.own)
    ensures whole && NamesKept(disk.kept, SafeFilename(offer.filename))
            && old(Resumable(disk.own, disk.dest, disk.kept, Stored(offer))) ==>
      && Landed(r, old(disk.own.commit), old(disk.dest), SafeFilename(offer.filename), name)
      && (r.Success? ==> moved.Some?)
  {
    ghost var before := disk.own;
    var progress;
    WholeSession(whole, before, Stored(offer), stream, sources);
    r, name, progress, moved := ReceiveFile(disk, offer, stream);
    HonestSession(PartOf(before, sources) && (honest || Stored(offer) !in sources) && offer.kind.FileKind?,
                  before, disk.own, Stored(offer), stream, sources);
  }
}

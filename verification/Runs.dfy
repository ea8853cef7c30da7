// Any number of sessions under one transfer id, for files and folders, with stops, cuts, pruning,
// other offers and other people's changes in between.
module Runs {
  import opened Wrappers
  import opened Text
  import opened Names
  import opened Manifest
  import opened FolderTree
  import opened FolderScan
  import opened Offers
  import opened Disk
  import opened FileTransfer
  import opened FileCommit
  import opened FileSession
  import opened FolderPrepare
  import opened FolderCommit
  import opened FolderSession

  datatype Payload = FilePayload(stream: Stream) | FolderPayload(manifest: FolderManifest, folder: FolderStream)

  // What happens before and during one session: state pruned by age, when the process stops, and
  // what everybody else does to destinations meanwhile.
  datatype Session = Session(
    offer: TransferOffer, payload: Payload, budget: nat, others: seq<map<string, Option<Node>>>, pruned: Pruning)

  function ManifestOf(payload: Payload): Option<FolderManifest> {
    if payload.FolderPayload? then Some(payload.manifest) else None
  }

  // Where a transfer ended up, once it is settled at a name nobody else touches.
  datatype Home = Home(offer: StoredOffer, manifest: Option<FolderManifest>, name: string)

  function HomeOf(session: Session, name: string): Home {
    Home(Stored(session.offer), ManifestOf(session.payload), name)
  }

  ghost predicate OnRecord(own: Sidecars, home: Home) {
    match home.manifest
    case None => CommitRecorded(own, home.offer, home.name)
    case Some(m) => FolderRecorded(own, home.offer, m, home.name)
  }

  ghost predicate Checks(dest: Destinations, digest: Digest, home: Home) {
    match home.manifest
    case None => FileAt(dest, home.name, home.offer.size, home.offer.blake3, digest)
    case Some(m) => FolderAt(dest, home.name, m, digest)
  }

  // The checked destination is there, and on record.
  ghost predicate Settled(own: Sidecars, dest: Destinations, digest: Digest, home: Home) {
    OnRecord(own, home) && Checks(dest, digest, home)
  }

  ghost predicate AtHome(disk: Workspace, home: Home)
    reads disk
  {
    home.name in disk.kept && Settled(disk.own, disk.dest, disk.digest, home)
  }

  ghost predicate KeepsRecords(session: Session) {
    CommitJson !in session.pruned.slots && DoneJson !in session.pruned.slots
  }

  ghost predicate KeepsClaim(session: Session) {
    KeepsRecords(session) && MetadataJson !in session.pruned.slots
  }

  // An offer the receiver does not refuse on sight, of the kind its payload is.
  ghost predicate Acceptable(disk: Workspace, session: Session) {
    match session.payload
    case FilePayload(_) => OfferOk(session.offer, disk.authentic) && session.offer.kind.FileKind?
    case FolderPayload(m, _) => FolderOfferOk(disk, session.offer, m)
  }

  // Where a session that succeeded says its data is; and nothing but a stop keeps an acceptable
  // session of the transfer that is at home from succeeding.
  ghost predicate SettledAt(disk: Workspace, r: Result<CompletedTransfer, CoreError>, session: Session, home: Home) {
    && (r.Success? ==> home == HomeOf(session, r.value.destination))
    && (Acceptable(disk, session) && home == HomeOf(session, home.name) ==> r.Success? || r == Failure(Stopped))
  }

  // Where the record on disk says its transfer is.
  function HomeOnRecord(own: Sidecars): Option<Home> {
    if own.done.Some? then Some(Home(own.done.value.offer, own.done.value.manifest, own.done.value.destination))
    else if own.commit.Some? then
      Some(Home(own.commit.value.offer, own.commit.value.manifest, own.commit.value.destination))
    else None
  }

  // Something else is there.
  ghost predicate Blocked(own: Sidecars, dest: Destinations, kept: set<string>, digest: Digest) {
    var home := HomeOnRecord(own);
    home.Some? && home.value.name in kept && home.value.name in dest && !Checks(dest, digest, home.value)
  }

  // Success at a name that others may still touch says nothing about later sessions.
  ghost predicate Unsettled(r: Result<CompletedTransfer, CoreError>, kept: set<string>) {
    r.Success? ==> r.value.destination !in kept
  }

  // ---------- unchanged sources ----------

  // The unchanged sources of some offers; any other offer may send whatever it likes.
  datatype Origins = Origins(files: FileSources, folders: Sources, times: (StoredOffer, FolderManifest) -> Times)

  // Everything that could be resumed for one of them is a beginning of its source.
  ghost predicate Faithful(own: Sidecars, origins: Origins) {
    PartOf(own, origins.files) && StagingOf(own, origins.folders)
  }

  // A session of one of these offers sends its source, as far as the stream gets.
  ghost predicate HonestPayload(disk: Workspace, session: Session, origins: Origins) {
    var offer := Stored(session.offer);
    match session.payload
    case FilePayload(stream) =>
      offer in origins.files && Acceptable(disk, session) ==> Honest(stream, offer, origins.files[offer])
    case FolderPayload(m, stream) =>
      (offer, m) in origins.folders && Acceptable(disk, session) ==>
        HonestFolder(stream, m, SourceOf(origins.folders, offer, m), disk.digest, origins.times(offer, m))
  }

  // One of the offers, and what its data is as a destination.
  datatype Target = Target(offer: StoredOffer, manifest: Option<FolderManifest>, node: Node)

  ghost predicate TargetOk(target: Target, origins: Origins, digest: Digest) {
    match target.manifest
    case None =>
      && target.offer.kind.FileKind? && target.offer in origins.files
      && target.node == RegularFile(origins.files[target.offer]) && AsOffered(target.node, target.offer, digest)
    case Some(m) =>
      && target.offer.kind.FolderKind? && (target.offer, m) in origins.folders
      && target.node == Node.Directory(origins.folders[(target.offer, m)]) && AsManifested(target.node, m, digest)
  }

  predicate Aims(session: Session, target: Target) {
    Stored(session.offer) == target.offer && ManifestOf(session.payload) == target.manifest
  }

  // An acceptable session of the target whose whole stream arrives.
  ghost predicate WholePayload(disk: Workspace, session: Session, origins: Origins) {
    var offer := Stored(session.offer);
    Acceptable(disk, session) &&
    match session.payload
    case FilePayload(stream) => offer in origins.files && Whole(stream, offer, origins.files[offer])
    case FolderPayload(m, stream) =>
      (offer, m) in origins.folders && WholeFolder(stream, m, SourceOf(origins.folders, offer, m))
  }

  predicate Holds(dest: Destinations, kept: set<string>, name: string, node: Node) {
    name in kept && name in dest && dest[name] == node
  }

  // The target's data is at its destination; or the session was stopped, or 2^32 names were taken,
  // or the metadata record of a folder was left without its manifest.
  ghost predicate Completed(own: Sidecars, dest: Destinations, kept: set<string>, target: Target,
                            r: Result<CompletedTransfer, CoreError>) {
    match r
    case Success(completed) => Holds(dest, kept, completed.destination, target.node)
    case Failure(error) =>
      || error == Stopped
      || (error == NoFreeName && TakenBelow(dest, target.offer.filename, U32_MAX + 1))
      || (error == ManifestMissing && target.manifest.Some? && HalfRecorded(own, target.offer))
  }

  // The calls a session makes at most.
  ghost function CallsAtMost(session: Session, dest: Destinations): nat {
    match session.payload
    case FilePayload(_) => FileCalls(session.offer.size, NamesTaken(dest, SafeFilename(session.offer.filename)))
    case FolderPayload(m, _) =>
      FolderCalls(session.offer.size, |m.entries|, NamesTaken(dest, SafeFilename(session.offer.filename)))
  }

  ghost predicate Enough(session: Session, dest: Destinations) {
    session.budget > CallsAtMost(session, dest)
  }

  lemma MoreTaken(session: Session, a: Destinations, b: Destinations, kept: set<string>, name: string,
                  moved: Option<Node>)
    ensures MovedTo(a, b, kept, name, moved) && NamesKept(kept, SafeFilename(session.offer.filename)) ==>
      CallsAtMost(session, a) <= CallsAtMost(session, b)
  {
    var filename := SafeFilename(session.offer.filename);
    if MovedTo(a, b, kept, name, moved) && NamesKept(kept, filename) {
      forall other | other in Candidates(a, filename) ensures other in Candidates(b, filename) {
        if moved.None? || other != name {
          assert SameAt(a, b, other);
        }
      }
      SubsetSize(Candidates(a, filename), Candidates(b, filename));
    }
  }

  // ---------- one session ----------

  // A settled transfer is found again by its own offer, and is somebody else's for every other.
  lemma SettledFile(own: Sidecars, dest: Destinations, kept: set<string>, digest: Digest, home: Home,
                    expected: StoredOffer)
    requires SidecarsOk(own)
    ensures Settled(own, dest, digest, home) && home.name in kept && expected.kind.FileKind? ==>
            if home.manifest.None? && home.offer == expected then
              FileIntact(own, dest, kept, expected, digest) && NameOnRecord(own, expected) == Some(home.name)
            else OtherOnRecord(own, expected)
  {
  }

  lemma SettledFolder(own: Sidecars, dest: Destinations, kept: set<string>, digest: Digest, home: Home,
                      expected: StoredOffer, m: FolderManifest)
    requires SidecarsOk(own)
    ensures Settled(own, dest, digest, home) && home.name in kept ==>
            if home.manifest == Some(m) && home.offer == expected then
              && FolderIntact(own, dest, kept, expected, m, digest)
              && FolderNameOnRecord(own, expected, m) == Some(home.name)
            else OtherFolderOnRecord(own, expected, m)
  {
  }

  // Not for what is on record, or for something whose recorded destination holds something else.
  ghost predicate Refused(own: Sidecars, dest: Destinations, kept: set<string>, digest: Digest, session: Session) {
    var expected := Stored(session.offer);
    match session.payload
    case FilePayload(_) =>
      !expected.kind.FileKind? || OtherOnRecord(own, expected) || FileOccupied(own, dest, kept, expected, digest)
    case FolderPayload(m, _) =>
      || !expected.kind.FolderKind? || OtherFolderOnRecord(own, expected, m)
      || FolderOccupied(own, dest, kept, expected, m, digest)
  }

  // With something else at its recorded destination, no offer gets anywhere under a transfer id.
  lemma BlockedRefuses(own: Sidecars, dest: Destinations, kept: set<string>, digest: Digest, session: Session)
    requires SidecarsOk(own)
    ensures Blocked(own, dest, kept, digest) ==> Refused(own, dest, kept, digest, session)
  {
  }

  lemma StillBlocked(own: Sidecars, a: Destinations, b: Destinations, kept: set<string>, digest: Digest, name: string,
                     moved: Option<Node>)
    ensures Blocked(own, a, kept, digest) && MovedTo(a, b, kept, name, moved) && moved.None? ==>
      Blocked(own, b, kept, digest)
  {
    if Blocked(own, a, kept, digest) && MovedTo(a, b, kept, name, moved) && moved.None? {
      assert SameAt(a, b, HomeOnRecord(own).value.name);
    }
  }

  // What stays on record stays settled, as nobody touches it and nothing is renamed.
  lemma StillSettled(own: Sidecars, after: Sidecars, digest: Digest, home: Home, a: Destinations, b: Destinations,
                     kept: set<string>, name: string, moved: Option<Node>)
    ensures Settled(own, a, digest, home) && MovedTo(a, b, kept, name, moved) && home.name in kept
            && moved.None? && (after == own || OnRecord(after, home)) ==>
      Settled(after, b, digest, home)
  {
    if MovedTo(a, b, kept, name, moved) && moved.None? && home.name in kept {
      assert SameAt(a, b, home.name);
    }
  }

  // A session of the one kind leaves what is kept for the other as it is.
  lemma StagingUntouched(before: Sidecars, after: Sidecars, expected: StoredOffer, sources: Sources)
    requires FileKept(before, after, expected) && (expected.kind.FileKind? || after == before)
    ensures StagingOf(before, sources) ==> StagingOf(after, sources)
  {
  }

  lemma PartUntouched(before: Sidecars, after: Sidecars, expected: StoredOffer, sources: FileSources)
    requires FolderKept(before, after, expected) && (expected.kind.FolderKind? || after == before)
    ensures PartOf(before, sources) ==> PartOf(after, sources)
  {
  }

  // ---------- continuing a target ----------

  // Nothing of the target has reached a destination, or nothing is left of it there.
  ghost predicate Awaited(own: Sidecars, dest: Destinations, kept: set<string>, target: Target) {
    && (own.done.Some? ==>
      && own.done.value.offer == target.offer && own.done.value.manifest == target.manifest
      && own.done.value.destination in kept && own.done.value.destination !in dest)
    && (own.commit.Some? ==>
      && own.commit.value.offer == target.offer && own.commit.value.manifest == target.manifest
      && own.commit.value.destination in kept && own.commit.value.destination !in dest)
  }

  // The target has the transfer id: no other offer is admitted under it.
  ghost predicate Claimed(own: Sidecars, dest: Destinations, kept: set<string>, target: Target) {
    own.metadata.Some? || own.commit.Some? || (own.done.Some? && !Awaited(own, dest, kept, target))
  }

  function RecordedName(own: Sidecars): string {
    if own.done.Some? then own.done.value.destination else if own.commit.Some? then own.commit.value.destination else ""
  }

  ghost predicate MetadataOf(own: Sidecars, target: Target) {
    own.metadata.Some? ==>
      && own.metadata.value == target.offer
      && (target.manifest.Some? && own.manifest.Some? ==> own.manifest == target.manifest)
  }

  // Everything on record belongs to the target, and a destination on record either is still free
  // or holds the target's data.
  ghost predicate Continues(own: Sidecars, dest: Destinations, kept: set<string>, target: Target) {
    && MetadataOf(own, target)
    && (Awaited(own, dest, kept, target)
        || (OnRecord(own, Home(target.offer, target.manifest, RecordedName(own)))
            && Holds(dest, kept, RecordedName(own), target.node)))
  }

  // On its way: what is kept can be continued, and leads to the target's data.
  ghost predicate OnTrack(disk: Workspace, target: Target, origins: Origins)
    reads disk
  {
    && TargetOk(target, origins, disk.digest) && NamesKept(disk.kept, target.offer.filename)
    && Faithful(disk.own, origins) && Continues(disk.own, disk.dest, disk.kept, target)
  }

  lemma FileOnTrack(when: bool, own: Sidecars, dest: Destinations, kept: set<string>, digest: Digest, target: Target,
                    origins: Origins)
    requires when ==> SidecarsOk(own) && TargetOk(target, origins, digest) && target.manifest.None?
    requires when ==> Faithful(own, origins) && Continues(own, dest, kept, target)
    ensures when ==>
            if Awaited(own, dest, kept, target) then Resumable(own, dest, kept, target.offer)
            else
              && FileIntact(own, dest, kept, target.offer, digest)
              && NameOnRecord(own, target.offer) == Some(RecordedName(own))
  {
  }

  lemma FolderOnTrack(when: bool, own: Sidecars, dest: Destinations, kept: set<string>, digest: Digest, target: Target,
                      origins: Origins)
    requires when ==> SidecarsOk(own) && TargetOk(target, origins, digest) && target.manifest.Some?
    requires when ==> Continues(own, dest, kept, target)
    ensures when ==>
      var m := target.manifest.value;
      if Awaited(own, dest, kept, target) then
        && FolderNotYetThere(own, dest, kept, target.offer, m)
        && (HalfRecorded(own, target.offer) || FolderResumable(own, dest, kept, target.offer, m))
      else
        && FolderIntact(own, dest, kept, target.offer, m, digest)
        && FolderNameOnRecord(own, target.offer, m) == Some(RecordedName(own))
  {
  }

  lemma ClaimedFile(own: Sidecars, dest: Destinations, kept: set<string>, target: Target, expected: StoredOffer)
    requires target.offer.kind.FileKind? <==> target.manifest.None?
    requires Continues(own, dest, kept, target) && Claimed(own, dest, kept, target)
    requires expected.kind.FileKind? && !(expected == target.offer && target.manifest.None?)
    ensures OtherOnRecord(own, expected)
  {
  }

  lemma ClaimedFolder(own: Sidecars, dest: Destinations, kept: set<string>, target: Target, expected: StoredOffer,
                      m: FolderManifest)
    requires target.offer.kind.FileKind? <==> target.manifest.None?
    requires Continues(own, dest, kept, target) && Claimed(own, dest, kept, target)
    requires expected.kind.FolderKind? && !(expected == target.offer && target.manifest == Some(m))
    ensures OtherFolderOnRecord(own, expected, m)
  {
  }

  // Whatever is not of the target is refused while the target has the id.
  lemma ClaimedRefuses(when: bool, own: Sidecars, dest: Destinations, kept: set<string>, digest: Digest, target: Target,
                       session: Session)
    requires when ==> (target.offer.kind.FileKind? <==> target.manifest.None?)
    requires when ==> Continues(own, dest, kept, target) && Claimed(own, dest, kept, target) && !Aims(session, target)
    ensures when ==> Refused(own, dest, kept, digest, session)
  {
    var expected := Stored(session.offer);
    if when && expected.kind.FileKind? && session.payload.FilePayload? {
      ClaimedFile(own, dest, kept, target, expected);
    } else if when && expected.kind.FolderKind? && session.payload.FolderPayload? {
      ClaimedFolder(own, dest, kept, target, expected, session.payload.manifest);
    }
  }

  // What a session did that was on its way with the target; `whole` if its whole stream arrived.
  ghost predicate Progressed(own: Sidecars, after: Sidecars, dest: Destinations, destAfter: Destinations,
                             kept: set<string>, target: Target,
                             r: Result<CompletedTransfer, CoreError>, name: string, moved: Option<Node>, whole: bool)
  {
    && MetadataOf(after, target) && MovedTo(dest, destAfter, kept, name, moved)
    && (r.Success? ==> r.value.destination == name)
    && (moved.Some? ==>
      && name in kept && moved.value == target.node && OnRecord(after, Home(target.offer, target.manifest, name))
      && (r.Success? || r == Failure(Stopped)))
    && (if Awaited(own, dest, kept, target) then
          && (moved.None? ==> Awaited(after, destAfter, kept, target) && RecordsStay(own, after))
          && (whole ==>
            || (target.manifest.Some? && HalfRecorded(after, target.offer)
                && (r == Failure(ManifestMissing) || r == Failure(Stopped)))
            || (Landed(r, own.commit, dest, target.offer.filename, name) && (r.Success? ==> moved.Some?)))
        else
          && moved.None? && OnRecord(after, Home(target.offer, target.manifest, RecordedName(own)))
          && (if r.Success? then name == RecordedName(own) else whole ==> r.error == Stopped))
  }

  // It goes on from there; and with its whole stream, unless it was stopped, it got there.
  lemma ContinuesOn(own: Sidecars, after: Sidecars, dest: Destinations, destAfter: Destinations, kept: set<string>,
                    target: Target,
                    r: Result<CompletedTransfer, CoreError>, name: string, moved: Option<Node>, whole: bool)
    requires Continues(own, dest, kept, target) && NamesKept(kept, target.offer.filename)
    requires Progressed(own, after, dest, destAfter, kept, target, r, name, moved, whole)
    ensures Continues(after, destAfter, kept, target)
    ensures Claimed(own, dest, kept, target) ==> Claimed(after, destAfter, kept, target)
    ensures whole ==> Completed(after, destAfter, kept, target, r)
  {
    if !Awaited(own, dest, kept, target) {
      assert SameAt(dest, destAfter, RecordedName(own));
    }
    if r == Failure(NoFreeName) && moved.None? && Landed(r, own.commit, dest, target.offer.filename, name) {
      StillTaken(dest, destAfter, kept, target.offer.filename);
    }
  }

  // Somebody else's session changes nothing of that.
  lemma StillContinues(own: Sidecars, a: Destinations, b: Destinations, kept: set<string>, target: Target, name: string,
                       moved: Option<Node>)
    ensures Continues(own, a, kept, target) && MovedTo(a, b, kept, name, moved) && moved.None? ==>
      Continues(own, b, kept, target) && (Claimed(own, a, kept, target) ==> Claimed(own, b, kept, target))
  {
    if MovedTo(a, b, kept, name, moved) && moved.None? {
      assert own.done.Some? && own.done.value.destination in kept ==> SameAt(a, b, own.done.value.destination);
      assert own.commit.Some? && own.commit.value.destination in kept ==> SameAt(a, b, own.commit.value.destination);
    }
  }

  lemma StillTaken(a: Destinations, b: Destinations, kept: set<string>, filename: string)
    requires NamesKept(kept, filename) && SameKept(a, b, kept) && TakenBelow(a, filename, U32_MAX + 1)
    ensures TakenBelow(b, filename, U32_MAX + 1)
  {
    forall name | name in kept ensures SameAt(b, a, name) {
      assert SameAt(a, b, name);
    }
    TakenBefore(b, a, kept, filename, U32_MAX + 1);
  }

  ghost predicate PayloadChecked(session: Session, name: string, history: seq<Destinations>, from: nat,
                                 digest: Digest) {
    match session.payload
    case FilePayload(_) => FileChecked(history, from, name, session.offer.size, session.offer.blake3, digest)
    case FolderPayload(m, _) => FolderChecked(history, from, name, m, digest)
  }

  // `handle_stream`. Of the ghost arguments, `home`, `faithful`, `track`, `claimed` and `blocked` say what
  // is known beforehand: where the transfer is settled, that sources are unchanged, that the target is
  // on its way, that it has the transfer id, and that something else is at the recorded destination.
  method ReceiveFilePayload(disk: Workspace, session: Session, ghost origins: Origins, ghost home: Option<Home>,
                            ghost target: Target, ghost faithful: bool, ghost track: bool)
    returns (r: Result<CompletedTransfer, CoreError>, name: string, ghost moved: Option<Node>)
    requires SidecarsOk(disk.own) && session.payload.FilePayload?
    requires home.Some? ==> AtHome(disk, home.value)
    requires faithful ==> Faithful(disk.own, origins) && HonestPayload(disk, session, origins)
    requires track ==> faithful && OnTrack(disk, target, origins) && Aims(session, target)
    modifies disk`dest, disk`budget, disk`others, disk`history, disk`own, disk`created
    ensures r == Failure(Stopped) ==> disk.budget == 0
    ensures SidecarsOk(disk.own) && old(disk.history) <= disk.history
            && disk.created == CreatedBy(old(disk.created), name, moved)
    ensures r.Success? ==>
      && ReceiptAccepted(session.offer, r.value.receipt) && r.value.destination == name
      && PayloadChecked(session, r.value.destination, disk.history, |old(disk.history)|, disk.digest)
    // Whatever was created or completed is settled, if nobody else touches it.
    ensures name in disk.kept && (r.Success? || moved.Some?) ==> AtHome(disk, HomeOf(session, name))
    ensures name in disk.kept && moved.Some? ==> r.Success? || r == Failure(Stopped)
    // What is settled stays on record, is what every success is for, and nothing else is created.
    ensures home.Some? ==>
      && (disk.own == old(disk.own) || OnRecord(disk.own, home.value)) && moved.None?
      && SettledAt(disk, r, session, home.value)
    ensures faithful ==> Faithful(disk.own, origins)
    ensures track ==>
      Progressed(old(disk.own), disk.own, old(disk.dest), disk.dest, disk.kept, target, r, name, moved,
                 WholePayload(disk, session, origins))
    ensures track && Acceptable(disk, session) ==>
      old(disk.budget) <= disk.budget + CallsAtMost(session, old(disk.dest))
    ensures MovedTo(old(disk.dest), disk.dest, disk.kept, name, moved)
    ensures old(Refused(disk.own, disk.dest, disk.kept, disk.digest, session)) ==>
      disk.own == old(disk.own) && moved.None? && r.Failure?
  {
    ghost var before, dest, offer := disk.own, disk.dest, Stored(session.offer);
    ghost var settled := if home.Some? then home.value else HomeOf(session, "");
    ghost var honest := faithful && Acceptable(disk, session) && offer in origins.files;
    ghost var whole := track && WholePayload(disk, session, origins);
    SettledFile(before, dest, disk.kept, disk.digest, settled, offer);
    FileOnTrack(track, before, dest, disk.kept, disk.digest, target, origins);
    r, name, moved := ReceiveFrom(disk, session.offer, session.payload.stream, origins.files, honest, whole);
    StagingUntouched(before, disk.own, offer, origins.folders);
  }

  // `handle_folder_stream`
  method ReceiveFolderPayload(disk: Workspace, session: Session, ghost origins: Origins, ghost home: Option<Home>,
                              ghost target: Target, ghost faithful: bool, ghost track: bool)
    returns (r: Result<CompletedTransfer, CoreError>, name: string, ghost moved: Option<Node>)
    requires SidecarsOk(disk.own) && session.payload.FolderPayload?
    requires home.Some? ==> AtHome(disk, home.value)
    requires faithful ==> Faithful(disk.own, origins) && HonestPayload(disk, session, origins)
    requires track ==> faithful && OnTrack(disk, target, origins) && Aims(session, target)
    modifies disk`dest, disk`budget, disk`others, disk`history, disk`own, disk`created
    ensures r == Failure(Stopped) ==> disk.budget == 0
    ensures SidecarsOk(disk.own) && old(disk.history) <= disk.history
            && disk.created == CreatedBy(old(disk.created), name, moved)
    ensures r.Success? ==>
      && ReceiptAccepted(session.offer, r.value.receipt) && r.value.destination == name
      && PayloadChecked(session, r.value.destination, disk.history, |old(disk.history)|, disk.digest)
    // Whatever was created or completed is settled, if nobody else touches it.
    ensures name in disk.kept && (r.Success? || moved.Some?) ==> AtHome(disk, HomeOf(session, name))
    ensures name in disk.kept && moved.Some? ==> r.Success? || r == Failure(Stopped)
    // What is settled stays on record, is what every success is for, and nothing else is created.
    ensures home.Some? ==>
      && (disk.own == old(disk.own) || OnRecord(disk.own, home.value)) && moved.None?
      && SettledAt(disk, r, session, home.value)
    ensures faithful ==> Faithful(disk.own, origins)
    ensures track ==>
      Progressed(old(disk.own), disk.own, old(disk.dest), disk.dest, disk.kept, target, r, name, moved,
                 WholePayload(disk, session, origins))
    ensures track && Acceptable(disk, session) ==>
      old(disk.budget) <= disk.budget + CallsAtMost(session, old(disk.dest))
    ensures MovedTo(old(disk.dest), disk.dest, disk.kept, name, moved)
    ensures old(Refused(disk.own, disk.dest, disk.kept, disk.digest, session)) ==>
      disk.own == old(disk.own) && moved.None? && r.Failure?
  {
    ghost var before, dest, offer := disk.own, disk.dest, Stored(session.offer);
    var FolderPayload(m, stream) := session.payload;
    ghost var settled := if home.Some? then home.value else HomeOf(session, "");
    ghost var honest := faithful && Acceptable(disk, session) && (offer, m) in origins.folders;
    ghost var whole := track && WholePayload(disk, session, origins);
    SettledFolder(before, dest, disk.kept, disk.digest, settled, offer, m);
    FolderOnTrack(track, before, dest, disk.kept, disk.digest, target, origins);
    r, name, moved := ReceiveFolder(disk, session.offer, m, stream, origins.folders, origins.times(offer, m), honest,
                                    whole);
    PartUntouched(before, disk.own, offer, origins.files);
  }

  // What is done with an offer, by its kind.
  method ReceivePayload(disk: Workspace, session: Session, ghost origins: Origins, ghost home: Option<Home>,
                        ghost target: Target, ghost faithful: bool, ghost track: bool, ghost claimed: bool,
                        ghost blocked: bool)
    returns (r: Result<CompletedTransfer, CoreError>, name: string, ghost moved: Option<Node>)
    requires SidecarsOk(disk.own) && (home.Some? ==> AtHome(disk, home.value))
    requires faithful ==> Faithful(disk.own, origins) && HonestPayload(disk, session, origins)
    requires track ==> faithful && OnTrack(disk, target, origins) && (Aims(session, target) || claimed)
    requires claimed ==> track && Claimed(disk.own, disk.dest, disk.kept, target)
    requires blocked ==> Blocked(disk.own, disk.dest, disk.kept, disk.digest)
    modifies disk`dest, disk`budget, disk`others, disk`history, disk`own, disk`created
    ensures r == Failure(Stopped) ==> disk.budget == 0
    ensures SidecarsOk(disk.own) && old(disk.history) <= disk.history
            && disk.created == CreatedBy(old(disk.created), name, moved)
    ensures r.Success? ==>
      && ReceiptAccepted(session.offer, r.value.receipt) && r.value.destination == name
      && PayloadChecked(session, r.value.destination, disk.history, |old(disk.history)|, disk.digest)
    // Whatever was created or completed is settled, if nobody else touches it.
    ensures name in disk.kept && (r.Success? || moved.Some?) ==> AtHome(disk, HomeOf(session, name))
    ensures name in disk.kept && moved.Some? ==> r.Success? || r == Failure(Stopped)
    // What is settled stays settled, is what every success is for, and nothing else is created.
    ensures home.Some? ==>
      AtHome(disk, home.value) && moved.None? && SettledAt(disk, r, session, home.value)
    ensures faithful ==> Faithful(disk.own, origins)
    ensures track ==>
      && Continues(disk.own, disk.dest, disk.kept, target)
      && (claimed ==> Claimed(disk.own, disk.dest, disk.kept, target))
      && (Aims(session, target) && WholePayload(disk, session, origins) ==>
        && Completed(disk.own, disk.dest, disk.kept, target, r)
        && (old(disk.budget) > CallsAtMost(session, old(disk.dest))
            || old(disk.budget) > CallsAtMost(session, disk.dest) ==>
          r != Failure(Stopped)))
    // With something else at a destination on record, nothing gets anywhere.
    ensures blocked ==>
      r.Failure? && moved.None? && Blocked(disk.own, disk.dest, disk.kept, disk.digest)
  {
    ghost var before, dest := disk.own, disk.dest;
    ghost var settled := if home.Some? then home.value else HomeOf(session, "");
    ghost var aims := track && Aims(session, target);
    BlockedRefuses(before, dest, disk.kept, disk.digest, session);
    ClaimedRefuses(claimed && !aims, before, dest, disk.kept, disk.digest, target, session);
    if session.payload.FilePayload? {
      r, name, moved := ReceiveFilePayload(disk, session, origins, home, target, faithful, aims);
    } else {
      r, name, moved := ReceiveFolderPayload(disk, session, origins, home, target, faithful, aims);
    }
    if aims {
      ContinuesOn(before, disk.own, dest, disk.dest, disk.kept, target, r, name, moved,
                  WholePayload(disk, session, origins));
    }
    MoreTaken(session, dest, disk.dest, disk.kept, name, moved);
    StillContinues(before, dest, disk.dest, disk.kept, target, name, moved);
    StillSettled(before, disk.own, disk.digest, settled, dest, disk.dest, disk.kept, name, moved);
    StillBlocked(before, dest, disk.dest, disk.kept, disk.digest, name, moved);
  }

  lemma PrunedSettled(own: Sidecars, pruning: Pruning, dest: Destinations, digest: Digest, home: Home)
    ensures CommitJson !in pruning.slots && DoneJson !in pruning.slots && Settled(own, dest, digest, home) ==>
      Settled(Pruned(own, pruning), dest, digest, home)
  {
  }

  lemma PrunedBlocked(own: Sidecars, pruning: Pruning, dest: Destinations, kept: set<string>, digest: Digest)
    ensures CommitJson !in pruning.slots && DoneJson !in pruning.slots && Blocked(own, dest, kept, digest) ==>
      Blocked(Pruned(own, pruning), dest, kept, digest)
  {
  }

  lemma PrunedFaithful(own: Sidecars, pruning: Pruning, origins: Origins)
    ensures Faithful(own, origins) ==> Faithful(Pruned(own, pruning), origins)
  {
  }

  // Whatever is pruned, what is left can be continued.
  lemma PrunedContinues(own: Sidecars, pruning: Pruning, dest: Destinations, kept: set<string>, target: Target)
    requires SidecarsOk(own)
    ensures Continues(own, dest, kept, target) ==> Continues(Pruned(own, pruning), dest, kept, target)
  {
    var left := Pruned(own, pruning);
    if Continues(own, dest, kept, target) && !Awaited(own, dest, kept, target) {
      if left.done.None? && left.commit.None? {
        assert Awaited(left, dest, kept, target);
      } else {
        assert RecordedName(left) == RecordedName(own);
        assert OnRecord(left, Home(target.offer, target.manifest, RecordedName(own)));
      }
    }
  }

  lemma PrunedClaimed(own: Sidecars, pruning: Pruning, dest: Destinations, kept: set<string>, target: Target)
    ensures CommitJson !in pruning.slots && DoneJson !in pruning.slots && MetadataJson !in pruning.slots ==>
      (Claimed(own, dest, kept, target) <==> Claimed(Pruned(own, pruning), dest, kept, target))
  {
  }

  // What happens before a session, and what will happen during it.
  method Begin(disk: Workspace, session: Session)
    modifies disk`own, disk`budget, disk`others
    ensures disk.own == Pruned(old(disk.own), session.pruned) && disk.budget == session.budget
            && disk.others == session.others
    ensures old(SidecarsOk(disk.own)) ==> SidecarsOk(disk.own)
  {
    disk.Prune(session.pruned);
    disk.budget, disk.others := session.budget, session.others;
  }

  // A session of a run, how it ended, and how many calls had been made before it.
  datatype Entry = Entry(session: Session, result: Result<CompletedTransfer, CoreError>, mark: nat)

  // A session of the target with its whole stream completed it, unless it was stopped for want of calls.
  ghost predicate EntryCompleted(disk: Workspace, entry: Entry, origins: Origins, target: Target)
    reads disk
  {
    Aims(entry.session, target) && WholePayload(disk, entry.session, origins) ==>
      && Completed(disk.own, disk.dest, disk.kept, target, entry.result)
      && (Enough(entry.session, disk.dest) ==> entry.result != Failure(Stopped))
  }

  // One session of a run, after whatever is pruned before it.
  method RunSession(disk: Workspace, session: Session, ghost origins: Origins, ghost home: Option<Home>,
                    ghost target: Target, ghost faithful: bool, ghost track: bool, ghost claimed: bool,
                    ghost blocked: bool)
    returns (r: Result<CompletedTransfer, CoreError>, ghost now: Option<Home>)
    requires SidecarsOk(disk.own)
    requires home.Some? ==> AtHome(disk, home.value)
    requires faithful ==> Faithful(disk.own, origins) && HonestPayload(disk, session, origins)
    requires track ==> faithful && OnTrack(disk, target, origins) && (Aims(session, target) || claimed)
    requires claimed ==> track && KeepsClaim(session) && Claimed(disk.own, disk.dest, disk.kept, target)
    requires blocked ==> KeepsRecords(session) && Blocked(disk.own, disk.dest, disk.kept, disk.digest)
    modifies disk`dest, disk`budget, disk`others, disk`history, disk`own, disk`created
    ensures r == Failure(Stopped) ==> disk.budget == 0
    ensures SidecarsOk(disk.own) && old(disk.history) <= disk.history
    ensures r.Success? ==>
      && ReceiptAccepted(session.offer, r.value.receipt)
      && PayloadChecked(session, r.value.destination, disk.history, |old(disk.history)|, disk.digest)
    ensures KeepsRecords(session) && now.Some? ==> AtHome(disk, now.value)
    ensures KeepsRecords(session) && home.Some? ==> now == home && disk.created == old(disk.created)
    ensures KeepsRecords(session) ==>
      if now.Some? then SettledAt(disk, r, session, now.value) else Unsettled(r, disk.kept)
    ensures disk.created == old(disk.created)
         || (|disk.created| == |old(disk.created)| + 1 && old(disk.created) <= disk.created
             && (home.None? && disk.created[|old(disk.created)|] in disk.kept ==> now.Some?))
    ensures faithful ==> Faithful(disk.own, origins)
    ensures track ==>
      && Continues(disk.own, disk.dest, disk.kept, target)
      && (claimed ==> Claimed(disk.own, disk.dest, disk.kept, target))
      && EntryCompleted(disk, Entry(session, r, |old(disk.history)|), origins, target)
      && (Aims(session, target) && WholePayload(disk, session, origins) && Enough(session, old(disk.dest)) ==>
           r != Failure(Stopped))
    ensures blocked ==>
      r.Failure? && disk.created == old(disk.created) && Blocked(disk.own, disk.dest, disk.kept, disk.digest)
  {
    PrunedSettled(disk.own, session.pruned, disk.dest, disk.digest,
                  if home.Some? then home.value else HomeOf(session, ""));
    PrunedFaithful(disk.own, session.pruned, origins);
    PrunedContinues(disk.own, session.pruned, disk.dest, disk.kept, target);
    PrunedClaimed(disk.own, session.pruned, disk.dest, disk.kept, target);
    PrunedBlocked(disk.own, session.pruned, disk.dest, disk.kept, disk.digest);
    Begin(disk, session);
    var name;
    ghost var moved;
    r, name, moved := ReceivePayload(disk, session, origins, if KeepsRecords(session) then home else None, target,
                                     faithful, track, claimed, blocked);
    now := if home.None? && name in disk.kept && (r.Success? || moved.Some?) then Some(HomeOf(session, name)) else home;
  }

  // ---------- any number of sessions ----------

  // A receipt the sender accepts, for a destination checked while the session ran.
  ghost predicate ReceiptSound(entry: Entry, history: seq<Destinations>, digest: Digest) {
    entry.result.Success? ==>
      && ReceiptAccepted(entry.session.offer, entry.result.value.receipt)
      && PayloadChecked(entry.session, entry.result.value.destination, history, entry.mark, digest)
  }

  lemma CheckedLater(session: Session, name: string, history: seq<Destinations>, later: seq<Destinations>, from: nat,
                     digest: Digest)
    requires PayloadChecked(session, name, history, from, digest) && history <= later
    ensures PayloadChecked(session, name, later, from, digest)
  {
    match session.payload
    case FilePayload(_) => FileCheckedLater(history, later, from, from, Stored(session.offer), name, digest);
    case FolderPayload(m, _) => FolderCheckedLater(history, later, from, from, name, m, digest);
  }

  ghost predicate AllSound(log: seq<Entry>, history: seq<Destinations>, digest: Digest) {
    forall i :: 0 <= i < |log| ==> ReceiptSound(log[i], history, digest)
  }

  lemma AllSoundExtends(log: seq<Entry>, history: seq<Destinations>, digest: Digest, entry: Entry,
                        later: seq<Destinations>)
    requires AllSound(log, history, digest) && history <= later && ReceiptSound(entry, later, digest)
    ensures AllSound(log + [entry], later, digest)
  {
    forall i | 0 <= i < |log| ensures ReceiptSound(log[i], later, digest) {
      var Entry(session, result, mark) := log[i];
      if result.Success? {
        assert ReceiptSound(log[i], history, digest);
        CheckedLater(session, result.value.destination, history, later, mark, digest);
      }
    }
  }

  ghost predicate Tidy(log: seq<Entry>) {
    forall i :: 0 <= i < |log| ==> KeepsRecords(log[i].session)
  }

  lemma TidyExtends(log: seq<Entry>, entry: Entry)
    ensures Tidy(log + [entry]) <==> Tidy(log) && KeepsRecords(entry.session)
  {
    var more := log + [entry];
    if Tidy(more) {
      assert more[|log|] == entry;
      forall i | 0 <= i < |log| ensures KeepsRecords(log[i].session) {
        assert more[i] == log[i];
      }
    }
  }

  // Before `since`, nothing succeeded at a kept name; from `since` on, everything at home, and every
  // acceptable session of the transfer at home that was not stopped.
  ghost predicate Once(disk: Workspace, log: seq<Entry>, home: Option<Home>, since: nat) {
    && (home.Some? || since == |log|) && since <= |log|
    && (forall i :: 0 <= i < since ==> Unsettled(log[i].result, disk.kept))
    && (forall i :: since <= i < |log| ==> SettledAt(disk, log[i].result, log[i].session, home.value))
  }

  lemma OnceExtends(when: bool, disk: Workspace, log: seq<Entry>, home: Option<Home>, since: nat, entry: Entry,
                    now: Option<Home>)
    requires when ==> Once(disk, log, home, since) && (home.Some? ==> now == home)
    requires when ==>
      if now.Some? then SettledAt(disk, entry.result, entry.session, now.value)
      else Unsettled(entry.result, disk.kept)
    ensures when ==> Once(disk, log + [entry], now, if now.None? then |log| + 1 else since)
  {
    var more := log + [entry];
    assert forall i :: 0 <= i < |log| ==> more[i] == log[i] && more[|log|] == entry;
  }

  // Only the last destination a run created can be a kept name, and then it is home.
  ghost predicate CreatedOnce(created: seq<string>, from: nat, kept: set<string>, home: Option<Home>) {
    forall k :: from <= k < |created| && created[k] in kept ==> home.Some? && k == |created| - 1
  }

  lemma CreatedOnceExtends(when: bool, created: seq<string>, more: seq<string>, from: nat, kept: set<string>,
                           home: Option<Home>, now: Option<Home>)
    requires when ==> CreatedOnce(created, from, kept, home) && (home.Some? ==> now == home && more == created)
    requires when && more != created ==>
      && |more| == |created| + 1 && created <= more && (more[|created|] in kept ==> now.Some?)
    ensures when ==> CreatedOnce(more, from, kept, now)
  {
  }

  ghost predicate HonestRun(disk: Workspace, sessions: seq<Session>, origins: Origins) {
    forall i :: 0 <= i < |sessions| ==> HonestPayload(disk, sessions[i], origins)
  }

  ghost predicate AllKeepClaim(sessions: seq<Session>) {
    forall i :: 0 <= i < |sessions| ==> KeepsClaim(sessions[i])
  }

  ghost predicate Stuck(log: seq<Entry>) {
    forall i :: 0 <= i < |log| ==> log[i].result.Failure?
  }

  ghost predicate AllAim(sessions: seq<Session>, target: Target) {
    forall i :: 0 <= i < |sessions| ==> Aims(sessions[i], target)
  }

  lemma RunSplits(disk: Workspace, sessions: seq<Session>, origins: Origins, target: Target)
    requires sessions != []
    ensures sessions[..|sessions| - 1] + [sessions[|sessions| - 1]] == sessions
    ensures var (before, last) := (sessions[..|sessions| - 1], sessions[|sessions| - 1]);
      && (HonestRun(disk, sessions, origins) ==> HonestRun(disk, before, origins) && HonestPayload(disk, last, origins))
      && (AllAim(sessions, target) ==> AllAim(before, target) && Aims(last, target))
      && (AllKeepClaim(sessions) ==> AllKeepClaim(before) && KeepsClaim(last))
  {
  }

  function SessionsOf(log: seq<Entry>): (sessions: seq<Session>)
    ensures |sessions| == |log| && forall i :: 0 <= i < |log| ==> sessions[i] == log[i].session
  {
    seq(|log|, i requires 0 <= i < |log| => log[i].session)
  }

  ghost predicate LastCompleted(disk: Workspace, log: seq<Entry>, origins: Origins, target: Target)
    reads disk
  {
    log != [] ==> EntryCompleted(disk, log[|log| - 1], origins, target)
  }

  lemma LogExtends(log: seq<Entry>, entry: Entry)
    ensures SessionsOf(log + [entry]) == SessionsOf(log) + [entry.session]
    ensures Stuck(log) && entry.result.Failure? ==> Stuck(log + [entry])
  {
  }

  // What a run has shown so far.
  ghost predicate RunOk(disk: Workspace, from: nat, log: seq<Entry>, home: Option<Home>, since: nat)
    reads disk
  {
    && SidecarsOk(disk.own) && from <= |disk.created|
    && AllSound(log, disk.history, disk.digest)
    && (Tidy(log) ==>
      && Once(disk, log, home, since)
      && CreatedOnce(disk.created, from, disk.kept, home)
      && (home.Some? ==> AtHome(disk, home.value)))
  }

  // One more session of a run.
  method ContinueRun(disk: Workspace, session: Session, ghost origins: Origins, ghost target: Target,
                     ghost created: seq<string>, ghost log: seq<Entry>, ghost home: Option<Home>, ghost since: nat,
                     ghost faithful: bool, ghost track: bool, ghost claimed: bool, ghost blocked: bool)
    returns (ghost longer: seq<Entry>, ghost now: Option<Home>, ghost settled: nat)
    requires RunOk(disk, |created|, log, home, since)
    requires faithful ==> Faithful(disk.own, origins) && HonestPayload(disk, session, origins)
    requires track ==> faithful && OnTrack(disk, target, origins) && (Aims(session, target) || claimed)
    requires claimed ==> KeepsClaim(session) && Claimed(disk.own, disk.dest, disk.kept, target)
    requires blocked && Tidy(log) ==>
      Stuck(log) && disk.created == created && Blocked(disk.own, disk.dest, disk.kept, disk.digest)
    modifies disk`dest, disk`budget, disk`others, disk`history, disk`own, disk`created
    ensures SessionsOf(longer) == SessionsOf(log) + [session]
    ensures RunOk(disk, |created|, longer, now, settled)
    ensures faithful ==> Faithful(disk.own, origins)
    ensures track ==>
      && OnTrack(disk, target, origins)
      && (claimed ==> Claimed(disk.own, disk.dest, disk.kept, target))
      && LastCompleted(disk, longer, origins, target)
    ensures blocked && Tidy(longer) ==>
      Stuck(longer) && disk.created == created && Blocked(disk.own, disk.dest, disk.kept, disk.digest)
  {
    ghost var history, before := disk.history, disk.created;
    ghost var tidy := Tidy(log) && KeepsRecords(session);
    var r;
    r, now := RunSession(disk, session, origins, if tidy then home else None, target, faithful, track, track && claimed,
                         blocked && tidy);
    ghost var entry := Entry(session, r, |history|);
    longer := log + [entry];
    assert longer[|longer| - 1] == entry;
    settled := if now.None? then |log| + 1 else since;
    AllSoundExtends(log, history, disk.digest, entry, disk.history);
    TidyExtends(log, entry);
    LogExtends(log, entry);
    OnceExtends(tidy, disk, log, home, since, entry, now);
    CreatedOnceExtends(tidy, before, disk.created, |created|, disk.kept, home, now);
  }

  // A run of which some of the properties below are known to begin with.
  method RunFrom(disk: Workspace, sessions: seq<Session>, ghost origins: Origins, ghost target: Target,
                 ghost faithful: bool, ghost track: bool, ghost claimed: bool, ghost blocked: bool)
    returns (ghost log: seq<Entry>, ghost home: Option<Home>, ghost since: nat)
    requires SidecarsOk(disk.own)
    requires faithful ==> Faithful(disk.own, origins) && HonestRun(disk, sessions, origins)
    requires track ==> faithful && OnTrack(disk, target, origins) && (AllAim(sessions, target) || claimed)
    requires claimed ==> AllKeepClaim(sessions) && track && Claimed(disk.own, disk.dest, disk.kept, target)
    requires blocked ==> Blocked(disk.own, disk.dest, disk.kept, disk.digest)
    modifies disk`dest, disk`budget, disk`others, disk`history, disk`own, disk`created
    ensures SessionsOf(log) == sessions
    ensures RunOk(disk, |old(disk.created)|, log, home, since)
    ensures faithful ==> Faithful(disk.own, origins)
    ensures track ==>
      && OnTrack(disk, target, origins)
      && (claimed ==> Claimed(disk.own, disk.dest, disk.kept, target))
      && LastCompleted(disk, log, origins, target)
    ensures blocked && Tidy(log) ==>
      Stuck(log) && disk.created == old(disk.created) && Blocked(disk.own, disk.dest, disk.kept, disk.digest)
  {
    log, home, since := [], None, 0;
    if sessions != [] {
      var last := |sessions| - 1;
      RunSplits(disk, sessions, origins, target);
      log, home, since := RunFrom(disk, sessions[..last], origins, target, faithful, track, claimed, blocked);
      log, home, since := ContinueRun(disk, sessions[last], origins, target, old(disk.created), log, home, since,
                                      faithful, track, claimed, blocked);
    }
  }

  // Any run of sessions: every receipt is for a destination checked in its own session; and while the
  // commit and done records are not pruned, everything that ends at names nobody else touches ends
  // at one name, for one offer, with one rename, and from then on every acceptable session of the
  // transfer at home that is not stopped ends there.
  method RunSessions(disk: Workspace, sessions: seq<Session>, ghost origins: Origins, ghost target: Target)
    returns (ghost log: seq<Entry>, ghost home: Option<Home>, ghost since: nat)
    requires SidecarsOk(disk.own)
    modifies disk`dest, disk`budget, disk`others, disk`history, disk`own, disk`created
    ensures SessionsOf(log) == sessions
    ensures RunOk(disk, |old(disk.created)|, log, home, since)
    // With unchanged sources, what is kept of an offer is a beginning of that offer's source.
    ensures old(Faithful(disk.own, origins)) && HonestRun(disk, sessions, origins) ==> Faithful(disk.own, origins)
    // However the sessions before it were stopped, cut or pruned, a last session with the whole
    // stream, if it is not stopped, leaves the source at its destination. Other offers may come in
    // between while the target has the transfer id.
    ensures old(OnTrack(disk, target, origins)) && HonestRun(disk, sessions, origins)
            && (AllAim(sessions, target)
                || (AllKeepClaim(sessions) && old(Claimed(disk.own, disk.dest, disk.kept, target)))) ==>
      && OnTrack(disk, target, origins)
      && (AllKeepClaim(sessions) && old(Claimed(disk.own, disk.dest, disk.kept, target)) ==>
           Claimed(disk.own, disk.dest, disk.kept, target))
      && LastCompleted(disk, log, origins, target)
    // Something else at a recorded destination stops every session until the record is pruned.
    ensures old(Blocked(disk.own, disk.dest, disk.kept, disk.digest)) && Tidy(log) ==>
      Stuck(log) && disk.created == old(disk.created) && Blocked(disk.own, disk.dest, disk.kept, disk.digest)
  {
    ghost var faithful := Faithful(disk.own, origins) && HonestRun(disk, sessions, origins);
    ghost var claimed := AllKeepClaim(sessions) && Claimed(disk.own, disk.dest, disk.kept, target);
    ghost var track := OnTrack(disk, target, origins) && faithful && (AllAim(sessions, target) || claimed);
    log, home, since := RunFrom(disk, sessions, origins, target, faithful, track, track && claimed,
                                Blocked(disk.own, disk.dest, disk.kept, disk.digest));
  }

  lemma TakenBlocks(own: Sidecars, home: Home, dest: Destinations, digest: Digest)
    requires SidecarsOk(own) && own.done.None? && own.commit.None? && IsSafeName(home.name)
    requires home.offer.kind.FolderKind? <==> home.manifest.Some?
    requires home.name in dest && !Checks(dest, digest, home)
    ensures var after := own.(commit := Some(CommitRecord(home.offer, home.name, home.manifest)));
      SidecarsOk(after) && Blocked(after, dest, {home.name}, digest)
  {
    CandidateIsValid(home.name, 0);
  }

  // A transfer that stops after its commit record, and whose name is then taken: its records and its
  // data are all there, and no session gets anywhere until the record is pruned.
  method NameTaken(disk: Workspace, expected: StoredOffer, occupant: Node, sessions: seq<Session>,
                   ghost origins: Origins, ghost target: Target)
    returns (later: Workspace, ghost log: seq<Entry>)
    requires SidecarsOk(disk.own) && disk.own.done.None? && disk.own.commit.None? && disk.own.part.Some?
    requires |disk.own.part.value.data| == expected.size && disk.digest(disk.own.part.value.data) == expected.blake3
    requires IsSafeName(expected.filename) && expected.kind.FileKind?
    requires expected.filename in disk.kept && expected.filename !in disk.dest
    requires !AsOffered(occupant, expected, disk.digest)
    modifies disk`dest, disk`budget, disk`others, disk`history, disk`own, disk`created
    ensures disk.own == old(disk.own).(commit := Some(CommitFor(expected, expected.filename)))
    ensures disk.created == old(disk.created)
    ensures later.digest == disk.digest && later.authentic == disk.authentic && SessionsOf(log) == sessions
    ensures Tidy(log) ==>
      Stuck(log) && later.created == [] && Blocked(later.own, later.dest, {expected.filename}, later.digest)
  {
    ghost var before := disk.own;
    var stopped := StopAfterCommit(disk, expected);
    TakenBlocks(before, Home(expected, None, expected.filename), disk.dest[expected.filename := occupant], disk.digest);
    later := new Workspace(disk.digest, disk.canon, disk.manifestDigest, disk.authentic,
                           {expected.filename}, disk.dest[expected.filename := occupant]);
    later.own := disk.own;
    ghost var home, since;
    log, home, since := RunSessions(later, sessions, origins, target);
  }

  method FolderNameTaken(disk: Workspace, expected: StoredOffer, m: FolderManifest, occupant: Node,
                         sessions: seq<Session>,
                         ghost origins: Origins, ghost target: Target)
    returns (later: Workspace, ghost log: seq<Entry>)
    requires SidecarsOk(disk.own) && disk.own.done.None? && disk.own.commit.None? && disk.own.staging.Some?
    requires WellFormed(m, disk.canon) && Matches(TreeOf(disk.own), m, disk.digest)
    requires IsSafeName(expected.filename) && expected.kind.FolderKind?
    requires expected.filename in disk.kept && expected.filename !in disk.dest
    requires !AsManifested(occupant, m, disk.digest)
    modifies disk`dest, disk`budget, disk`others, disk`history, disk`own, disk`created
    ensures disk.own == old(disk.own).(commit := Some(FolderCommitFor(expected, m, expected.filename)))
    ensures disk.created == old(disk.created)
    ensures later.digest == disk.digest && later.authentic == disk.authentic && SessionsOf(log) == sessions
    ensures Tidy(log) ==>
      Stuck(log) && later.created == [] && Blocked(later.own, later.dest, {expected.filename}, later.digest)
  {
    ghost var before := disk.own;
    var stopped := StopAfterFolderCommit(disk, expected, m);
    TakenBlocks(before, Home(expected, Some(m), expected.filename), disk.dest[expected.filename := occupant],
                disk.digest);
    later := new Workspace(disk.digest, disk.canon, disk.manifestDigest, disk.authentic,
                           {expected.filename}, disk.dest[expected.filename := occupant]);
    later.own := disk.own;
    ghost var home, since;
    log, home, since := RunSessions(later, sessions, origins, target);
  }

  // Where every run can begin.
  lemma FreshContinues(dest: Destinations, kept: set<string>, target: Target, origins: Origins)
    ensures var own := Sidecars(None, None, None, None, None, None);
      SidecarsOk(own) && Faithful(own, origins) && Continues(own, dest, kept, target)
  {
  }
}

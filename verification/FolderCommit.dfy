// Committing a received folder: its directories, the check, the commit record, the rename, the done record.
module FolderCommit {
  import opened Wrappers
  import opened Names
  import opened Manifest
  import opened FolderTree
  import opened FolderScan
  import opened Offers
  import opened Disk
  import opened FolderCheck
  import opened FileTransfer
  import opened FileCommit
  import opened FolderStaging
  import opened FolderReceive
  import opened FolderTransfer
  import opened FolderPrepare

  // ---------- the manifest's directories ----------

  // A directory entry of the source.
  predicate SourcedDirectory(source: Tree, entry: FolderEntry) {
    ValidRelativePath(entry.path) && entry.path in source && source[entry.path].DirItem?
  }

  ghost predicate DirectoriesSourced(es: seq<FolderEntry>, source: Tree) {
    forall i :: 0 <= i < |es| && es[i].kind.Directory? ==> SourcedDirectory(source, es[i])
  }

  // Everything that was there still is.
  ghost predicate Extended(before: Tree, after: Tree) {
    forall p :: p in before ==> p in after && after[p] == before[p]
  }

  predicate IsDirectory(t: Tree, p: string) {
    p in t && t[p].DirItem?
  }

  method MakeEntryDirectory(disk: Workspace, entry: FolderEntry, ghost source: FsTree)
    returns (r: Result<(), CoreError>)
    requires disk.own.staging.Some?
    modifies disk`dest, disk`budget, disk`others, disk`history, disk`own
    ensures r == Failure(Stopped) ==> disk.budget == 0
    ensures old(disk.budget) <= disk.budget + PARENT_CALLS + 1
    ensures Undisturbed(disk) && Restaged(old(disk.own), disk.own, {})
    ensures Extended(TreeOf(old(disk.own)), TreeOf(disk.own))
    ensures r.Success? ==> IsDirectory(TreeOf(disk.own), entry.path)
    ensures Partial(TreeOf(old(disk.own)), source) && SourcedDirectory(source, entry) ==>
      Partial(TreeOf(disk.own), source) && (r.Success? || r == Failure(Stopped))
  {
    if !ValidRelativePath(entry.path) {
      r := Failure(FolderInvalid(InvalidPath));
    } else {
      ghost var t := TreeOf(disk.own);
      r := EnsureParents(disk, entry.path);
      if Partial(t, source) && SourcedDirectory(source, entry) {
        TreeParents(source, entry.path);
        ParentsAddedPartial(t, TreeOf(disk.own), entry.path, source);
      }
      if r.Success? {
        r := CreateEntry(disk, entry.path);
      }
    }
  }

  lemma SetDirectoryIsTree(t: FsTree, path: string)
    requires ValidRelativePath(path) && ParentsIn(t, path, |path|)
    ensures IsTree(t[path := DirItem])
  {
    ValidWhole(path);
    AddIsTree(t, path, DirItem);
  }

  // create_dir, or the check of what is there
  method CreateEntry(disk: Workspace, path: string) returns (r: Result<(), CoreError>)
    requires disk.own.staging.Some? && ValidRelativePath(path) && ParentsIn(TreeOf(disk.own), path, |path|)
    modifies disk`dest, disk`budget, disk`others, disk`history, disk`own
    ensures r == Failure(Stopped) ==> disk.budget == 0
    ensures old(disk.budget) <= disk.budget + 1
    ensures Undisturbed(disk) && Restaged(old(disk.own), disk.own, {})
    ensures TreeOf(disk.own) == TreeOf(old(disk.own))
         || (path !in TreeOf(old(disk.own)) && TreeOf(disk.own) == TreeOf(old(disk.own))[path := DirItem])
    ensures r.Success? ==> IsDirectory(TreeOf(disk.own), path)
    ensures r.Failure? ==>
      r.error == Stopped || (path in TreeOf(old(disk.own)) && !TreeOf(old(disk.own))[path].DirItem?)
  {
    r := disk.Call();
    var t := TreeOf(disk.own);
    if r.Failure? {
    } else if path !in t {
      SetDirectoryIsTree(t, path);
      disk.own := WithTree(disk.own, t[path := DirItem]);
    } else if !t[path].DirItem? {
      r := Failure(NotRegular);
    }
  }

  ghost predicate DirectoriesMade(t: Tree, es: seq<FolderEntry>) {
    forall i :: 0 <= i < |es| && es[i].kind.Directory? ==> IsDirectory(t, es[i].path)
  }

  // PARENT_CALLS and one more for each directory.
  function DirectoryCalls(directories: nat): nat {
    4098 * directories
  }

  // `create_manifest_directories`
  method MakeDirectories(disk: Workspace, es: seq<FolderEntry>, ghost source: FsTree) returns (r: Result<(), CoreError>)
    requires disk.own.staging.Some?
    modifies disk`dest, disk`budget, disk`others, disk`history, disk`own
    ensures r == Failure(Stopped) ==> disk.budget == 0
    ensures old(disk.budget) <= disk.budget + 1 + DirectoryCalls(|es|)
    ensures Undisturbed(disk) && Restaged(old(disk.own), disk.own, {})
    ensures Extended(TreeOf(old(disk.own)), TreeOf(disk.own))
    ensures r.Success? ==> DirectoriesMade(TreeOf(disk.own), es)
    ensures Partial(TreeOf(old(disk.own)), source) && DirectoriesSourced(es, source) ==>
      Partial(TreeOf(disk.own), source) && (r.Success? || r == Failure(Stopped))
  {
    r := disk.Call(); // symlink_metadata of the staging directory
    var i := 0;
    while i < |es| && r.Success?
      invariant i <= |es| && (r == Failure(Stopped) ==> disk.budget == 0)
      invariant old(disk.budget) <= disk.budget + 1 + DirectoryCalls(i)
      invariant Undisturbed(disk) && Restaged(old(disk.own), disk.own, {})
      invariant Extended(TreeOf(old(disk.own)), TreeOf(disk.own))
      invariant r.Success? ==> DirectoriesMade(TreeOf(disk.own), es[..i])
      invariant Partial(TreeOf(old(disk.own)), source) && DirectoriesSourced(es, source) ==>
        Partial(TreeOf(disk.own), source) && (r.Success? || r == Failure(Stopped))
    {
      if es[i].kind.Directory? {
        r := MakeEntryDirectory(disk, es[i], source);
      }
      i := i + 1;
    }
    assert es[..|es|] == es;
  }

  // All files complete and all directories made: the staging directory is the source.
  lemma StagedSource(t: Tree, m: FolderManifest, source: FsTree, digest: Digest, times: Times)
    requires Lists(m.entries, source, digest, times) && Partial(t, source)
    requires FilesDone(t, source, FileEntries(m.entries), |FileEntries(m.entries)|) && DirectoriesMade(t, m.entries)
    ensures t == source
  {
    var es, files := m.entries, FileEntries(m.entries);
    var at := FilesOrdered(es);
    forall p | p in source ensures p in t && t[p] == source[p] {
      assert Listed(es, p);
      var i :| 0 <= i < |es| && es[i].path == p;
      if es[i].kind.File? {
        assert Occurs(at, i);
        var j :| 0 <= j < |at| && at[j] == i;
        assert Done(t, source, files[j].path);
      } else {
        assert IsDirectory(t, es[i].path);
      }
    }
  }

  lemma ListedDirectoriesSourced(m: FolderManifest, source: FsTree, canon: Canonical, digest: Digest, times: Times)
    requires WellFormed(m, canon) && Lists(m.entries, source, digest, times)
    ensures DirectoriesSourced(m.entries, source)
  {
    var es := m.entries;
    forall i | 0 <= i < |es| && es[i].kind.Directory? ensures SourcedDirectory(source, es[i]) {
      assert EntryOk(es[i]) && es[i] == EntryOf(source, es[i].path, digest, times);
    }
  }

  // ---------- finalize_folder ----------

  // The states once the commit record is chosen, with the staging directory still there or renamed.
  ghost predicate FolderCommitReaches(before: Sidecars, expected: StoredOffer, m: FolderManifest, name: string,
                                      after: Sidecars) {
    var committed := before.(commit := Some(FolderCommitFor(expected, m, name)));
    || after == before
    || FolderConcludeReaches(committed, expected, m, name, after)
    || FolderConcludeReaches(committed.(staging := None), expected, m, name, after)
  }

  ghost predicate FolderConcludeReaches(before: Sidecars, expected: StoredOffer, m: FolderManifest, name: string,
                                        after: Sidecars) {
    var s1 := before.(done := Some(FolderDoneFor(expected, m, name)));
    var s2 := s1.(metadata := None);
    var s3 := s2.(manifest := None);
    after == before || after == s1 || after == s2 || after == s3 || after == s3.(commit := None)
  }

  // Nothing but a directory with nothing in it gives way to a rename.
  predicate GivesWay(node: Node) {
    node.Directory? && node.tree == map[]
  }

  // The staging directory, renamed unless something is at `name` already; `moved` is what was.
  method RenameStaging(disk: Workspace, name: string) returns (r: Result<(), CoreError>, ghost moved: Option<Node>)
    requires disk.own.staging.Some?
    modifies disk`dest, disk`budget, disk`others, disk`history, disk`own, disk`created
    ensures r == Failure(Stopped) ==> disk.budget == 0
    ensures old(disk.budget) <= disk.budget + 2
    ensures old(disk.budget) == 0 ==> r == Failure(Stopped)
    ensures old(disk.history) <= disk.history && MovedTo(old(disk.dest), disk.dest, disk.kept, name, moved)
    ensures disk.created == CreatedBy(old(disk.created), name, moved)
    ensures moved.None? ==> disk.own == old(disk.own)
    ensures moved.Some? ==>
      && r.Success? && moved.value == Node.Directory(TreeOf(old(disk.own)))
      && disk.own == old(disk.own).(staging := None)
    ensures r.Success? && name in disk.kept ==> (moved.None? <==> name in old(disk.dest))
    ensures r.Failure? ==> r.error == Stopped || (r.error == RenameFailed && name !in disk.kept)
  {
    moved := None;
    ghost var before := disk.dest;
    r := disk.Call(); // try_exists
    if r.Success? && name !in disk.dest {
      r := disk.Call(); // rename
      assert name in disk.kept ==> SameAt(before, disk.dest, name);
      if r.Success? && name in disk.dest && !GivesWay(disk.dest[name]) {
        r := Failure(RenameFailed);
      } else if r.Success? {
        moved := Some(Node.Directory(TreeOf(disk.own)));
        disk.dest := disk.dest[name := Node.Directory(TreeOf(disk.own))];
        disk.own := disk.own.(staging := None);
        disk.created := disk.created + [name];
      }
    }
  }

  // A fresh destination, recorded before anything is renamed to it.
  method RecordFreshFolder(disk: Workspace, expected: StoredOffer, m: FolderManifest)
    returns (r: Result<(), CoreError>, name: string)
    requires IsSafeName(expected.filename)
    modifies disk`dest, disk`budget, disk`others, disk`history, disk`own
    ensures r == Failure(Stopped) ==> disk.budget == 0
    ensures NamesKept(disk.kept, expected.filename) ==>
      old(disk.budget) <= disk.budget + 2 + NamesTaken(old(disk.dest), expected.filename)
    ensures Undisturbed(disk)
    ensures disk.own == old(disk.own) || disk.own == old(disk.own).(commit := Some(FolderCommitFor(expected, m, name)))
    ensures r.Success? || disk.own != old(disk.own) ==> ValidDestinationName(name)
    ensures r.Success? ==> disk.own.commit == Some(FolderCommitFor(expected, m, name))
    ensures r.Success? && name in disk.kept ==> name !in old(disk.dest)
    ensures r.Failure? ==> r.error == Stopped || r.error == NoFreeName
    ensures expected.filename in disk.kept && expected.filename !in old(disk.dest) && old(disk.budget) == 2 ==>
      r.Success? && name == expected.filename && disk.budget == 0
    ensures NamesKept(disk.kept, expected.filename) ==>
      && Landed(r, None, old(disk.dest), expected.filename, name)
      && (disk.own != old(disk.own) ==> name in disk.kept && name !in disk.dest)
  {
    name := "";
    ghost var index;
    var free;
    free, index := UniqueDestination(disk, expected.filename);
    if free.Failure? {
      r := Failure(free.error);
    } else {
      name := free.value;
      r := disk.Update([disk.own.(commit := Some(CommitRecord(expected, name, Some(m))))]);
    }
  }

  // The recorded destination, or a fresh one recorded now.
  method ChooseFolderDestination(disk: Workspace, expected: StoredOffer, m: FolderManifest)
    returns (r: Result<(), CoreError>, name: string)
    requires RecordsOk(disk.own) && IsSafeName(expected.filename)
    modifies disk`dest, disk`budget, disk`others, disk`history, disk`own
    ensures r == Failure(Stopped) ==> disk.budget == 0
    ensures NamesKept(disk.kept, expected.filename) ==>
      old(disk.budget) <= disk.budget + 3 + NamesTaken(old(disk.dest), expected.filename)
    ensures Undisturbed(disk)
    ensures disk.own == old(disk.own)
         || (old(disk.own.commit).None?
             && disk.own == old(disk.own).(commit := Some(FolderCommitFor(expected, m, name))))
    ensures r.Success? || disk.own != old(disk.own) ==> ValidDestinationName(name)
    ensures r.Success? ==> disk.own.commit == Some(FolderCommitFor(expected, m, name))
    ensures expected.filename in disk.kept && expected.filename !in old(disk.dest) && old(disk.budget) == 3
            && old(disk.own.commit).None? ==>
      r.Success? && name == expected.filename && disk.budget == 0
    ensures r.Success? && name in disk.kept && old(FolderFree(disk.own, disk.dest, disk.kept, expected, m)) ==>
      name !in old(disk.dest)
    ensures NamesKept(disk.kept, expected.filename) && old(FolderFree(disk.own, disk.dest, disk.kept, expected, m)) ==>
      && Landed(r, old(disk.own.commit), old(disk.dest), expected.filename, name)
      && FolderFree(disk.own, disk.dest, disk.kept, expected, m)
  {
    name := "";
    ghost var before := disk.dest;
    r := disk.Call(); // read the commit record
    FolderStaysFree(disk.own, before, disk.dest, disk.kept, expected, m);
    if r.Failure? {
    } else if disk.own.commit.None? {
      ghost var called := disk.dest;
      r, name := RecordFreshFolder(disk, expected, m);
      LandedBefore(r, None, before, called, disk.kept, expected.filename, name);
      SameCandidates(before, called, disk.kept, expected.filename);
    } else if disk.own.commit.value.offer != expected {
      r := Failure(Reused);
    } else if disk.own.commit.value.manifest != Some(m) {
      r := Failure(ManifestMismatch);
    } else if !ValidDestinationName(disk.own.commit.value.destination) {
      r := Failure(BadDestination);
    } else {
      name := disk.own.commit.value.destination;
    }
  }

  // The destination check, the time, the done record and the clean-up.
  method ConcludeFolder(disk: Workspace, expected: StoredOffer, m: FolderManifest, name: string)
    returns (r: Result<CompletedTransfer, CoreError>)
    modifies disk`dest, disk`budget, disk`others, disk`history, disk`own
    ensures r == Failure(Stopped) ==> disk.budget == 0
    ensures old(disk.budget) <= disk.budget + 3 * |m.entries| + 9
    ensures Undisturbed(disk)
    ensures FolderConcludeReaches(old(disk.own), expected, m, name, disk.own)
    ensures r.Success? ==>
      && r.value == CompletedTransfer(ReceiptOf(expected), name)
      && FolderCompleteOk(disk.own, disk.history, |old(disk.history)|, disk.digest, expected, m, r.value)
      && (name in disk.kept ==> FolderAt(disk.dest, name, m, disk.digest))
    ensures name in disk.kept && WellFormed(m, disk.canon) && FolderAt(old(disk.dest), name, m, disk.digest) ==>
      r.Success? || r == Failure(Stopped)
  {
    var matched := ValidateContents(disk, At(name), m);
    if matched.Failure? {
      r := Failure(matched.error);
    } else {
      ghost var checked := disk.history;
      var recorded := disk.own.(done := Some(DoneRecord(expected, name, ReceiptOf(expected), Some(m))));
      var metadataGone := recorded.(metadata := None);
      var manifestGone := metadataGone.(manifest := None);
      // set the modification time, write the done record, remove metadata, manifest and commit record
      var cleaned := disk.Update([disk.own, recorded, metadataGone, manifestGone, manifestGone.(commit := None)]);
      FolderCheckedLater(checked, disk.history, |old(disk.history)|, |old(disk.history)|, name, m, disk.digest);
      r := if cleaned.Success? then Success(CompletedTransfer(ReceiptOf(expected), name)) else Failure(cleaned.error);
    }
  }

  // What was renamed is a directory that matches the manifest.
  ghost predicate AsManifested(node: Node, m: FolderManifest, digest: Digest) {
    node.Directory? && Matches(node.tree, m, digest)
  }

  method RenameAndConcludeFolder(disk: Workspace, expected: StoredOffer, m: FolderManifest, name: string)
    returns (r: Result<CompletedTransfer, CoreError>, ghost moved: Option<Node>)
    requires disk.own.done.None? && disk.own.staging.Some?
             && disk.own.commit == Some(FolderCommitFor(expected, m, name))
    requires WellFormed(m, disk.canon) && Matches(TreeOf(disk.own), m, disk.digest)
    modifies disk`dest, disk`budget, disk`others, disk`history, disk`own, disk`created
    ensures r == Failure(Stopped) ==> disk.budget == 0
    ensures old(disk.budget) <= disk.budget + 3 * |m.entries| + 11
    ensures old(disk.budget) == 0 ==> r == Failure(Stopped) && moved.None? && disk.own == old(disk.own)
    ensures FolderConcludeReaches(old(disk.own), expected, m, name, disk.own)
         || FolderConcludeReaches(old(disk.own).(staging := None), expected, m, name, disk.own)
    ensures old(disk.history) <= disk.history && MovedTo(old(disk.dest), disk.dest, disk.kept, name, moved)
    ensures disk.created == CreatedBy(old(disk.created), name, moved)
    ensures moved.Some? ==>
      && moved.value == Node.Directory(TreeOf(old(disk.own))) && AsManifested(moved.value, m, disk.digest)
      && FolderRecorded(disk.own, expected, m, name) && (name in disk.kept ==> r.Success? || r == Failure(Stopped))
    ensures r.Success? ==>
      && r.value == CompletedTransfer(ReceiptOf(expected), name)
      && FolderCompleteOk(disk.own, disk.history, |old(disk.history)|, disk.digest, expected, m, r.value)
      && (name in disk.kept ==> FolderAt(disk.dest, name, m, disk.digest))
    ensures name in disk.kept && name !in old(disk.dest) && moved.None? ==>
      disk.own == old(disk.own) && name !in disk.dest
    ensures name in disk.kept && name !in old(disk.dest) ==>
      && (r.Success? || r == Failure(Stopped))
      && (r.Success? ==> moved.Some?)
  {
    var renamed;
    renamed, moved := RenameStaging(disk, name);
    if renamed.Failure? {
      r := Failure(renamed.error);
    } else {
      ghost var from := |disk.history|;
      ghost var before, renamedDest := old(disk.dest), disk.dest;
      r := ConcludeFolder(disk, expected, m, name);
      MovedStays(before, renamedDest, disk.dest, disk.kept, name, moved);
      FolderCheckedLater(disk.history, disk.history, from, |old(disk.history)|, name, m, disk.digest);
    }
  }

  // `finalize_folder` once the staged tree is known to match.
  method CommitStaged(disk: Workspace, expected: StoredOffer, m: FolderManifest)
    returns (r: Result<CompletedTransfer, CoreError>, name: string, ghost moved: Option<Node>)
    requires RecordsOk(disk.own) && disk.own.done.None? && disk.own.staging.Some? && IsSafeName(expected.filename)
    requires WellFormed(m, disk.canon) && Matches(TreeOf(disk.own), m, disk.digest)
    modifies disk`dest, disk`budget, disk`others, disk`history, disk`own, disk`created
    ensures r == Failure(Stopped) ==> disk.budget == 0
    ensures NamesKept(disk.kept, expected.filename) ==>
      old(disk.budget) <= disk.budget + 3 * |m.entries| + 14 + NamesTaken(old(disk.dest), expected.filename)
    ensures expected.filename in disk.kept && expected.filename !in old(disk.dest) && old(disk.budget) == 3
            && old(disk.own.commit).None? ==>
      && r == Failure(Stopped) && moved.None?
      && disk.own == old(disk.own).(commit := Some(FolderCommitFor(expected, m, expected.filename)))
    ensures disk.own == old(disk.own)
            || (ValidDestinationName(name) && FolderCommitReaches(old(disk.own), expected, m, name, disk.own))
    ensures old(disk.history) <= disk.history && MovedTo(old(disk.dest), disk.dest, disk.kept, name, moved)
    ensures disk.created == CreatedBy(old(disk.created), name, moved)
    ensures moved.Some? ==>
      && moved.value == Node.Directory(TreeOf(old(disk.own))) && AsManifested(moved.value, m, disk.digest)
      && FolderRecorded(disk.own, expected, m, name) && (name in disk.kept ==> r.Success? || r == Failure(Stopped))
    ensures r.Success? ==>
      && r.value == CompletedTransfer(ReceiptOf(expected), name)
      && FolderCompleteOk(disk.own, disk.history, |old(disk.history)|, disk.digest, expected, m, r.value)
      && (name in disk.kept ==> FolderAt(disk.dest, name, m, disk.digest))
    // Until it is renamed, no other destination is recorded and the recorded one stays free.
    ensures NamesKept(disk.kept, expected.filename) && old(FolderFree(disk.own, disk.dest, disk.kept, expected, m)) ==>
      if moved.None? then
        FolderNotYetThere(disk.own, disk.dest, disk.kept, expected, m) && RecordsStay(old(disk.own), disk.own)
      else name in disk.kept
    ensures NamesKept(disk.kept, expected.filename) && old(FolderFree(disk.own, disk.dest, disk.kept, expected, m)) ==>
      && Landed(r, old(disk.own.commit), old(disk.dest), expected.filename, name)
      && (r.Success? ==> moved.Some?)
  {
    moved := None;
    ghost var dest, history := disk.dest, disk.history;
    var chosen;
    chosen, name := ChooseFolderDestination(disk, expected, m);
    ghost var chosenDest, chosenHistory := disk.dest, disk.history;
    if chosen.Failure? {
      r := Failure(chosen.error);
    } else {
      r, moved := RenameAndConcludeFolder(disk, expected, m, name);
      HistoryOn(history, chosenHistory, disk.history);
      FolderCheckedLater(disk.history, disk.history, |chosenHistory|, |history|, name, m, disk.digest);
      MovedOn(dest, chosenDest, disk.dest, disk.kept, name, moved);
    }
  }

  // A process that makes that many calls stops with the destination on record and nothing there.
  method StopAfterFolderCommit(disk: Workspace, expected: StoredOffer, m: FolderManifest)
    returns (r: Result<CompletedTransfer, CoreError>)
    requires RecordsOk(disk.own) && disk.own.done.None? && disk.own.commit.None? && disk.own.staging.Some?
    requires WellFormed(m, disk.canon) && Matches(TreeOf(disk.own), m, disk.digest) && IsSafeName(expected.filename)
    requires expected.filename in disk.kept && expected.filename !in disk.dest
    modifies disk`dest, disk`budget, disk`others, disk`history, disk`own, disk`created
    ensures r == Failure(Stopped) && disk.created == old(disk.created) && SameKept(old(disk.dest), disk.dest, disk.kept)
    ensures disk.own == old(disk.own).(commit := Some(FolderCommitFor(expected, m, expected.filename)))
  {
    disk.budget := 3;
    var name;
    ghost var moved;
    r, name, moved := CommitStaged(disk, expected, m);
  }

  // Directories, the check of the staged tree, and the times.
  method CompleteStaging(disk: Workspace, m: FolderManifest, ghost source: FsTree, ghost times: Times)
    returns (r: Result<(), CoreError>)
    requires disk.own.staging.Some? && WellFormed(m, disk.canon)
    modifies disk`dest, disk`budget, disk`others, disk`history, disk`own
    ensures r == Failure(Stopped) ==> disk.budget == 0
    ensures old(disk.budget) <= disk.budget + DirectoryCalls(|m.entries|) + 3 * |m.entries| + 6
    ensures Undisturbed(disk) && Restaged(old(disk.own), disk.own, {})
    ensures r.Success? ==> Matches(TreeOf(disk.own), m, disk.digest)
    ensures Partial(TreeOf(old(disk.own)), source) && Lists(m.entries, source, disk.digest, times)
            && FilesDone(TreeOf(old(disk.own)), source, FileEntries(m.entries), |FileEntries(m.entries)|) ==>
      && Partial(TreeOf(disk.own), source)
      && (r.Success? || r == Failure(Stopped))
      && (r.Success? ==> TreeOf(disk.own) == source)
  {
    ghost var t := TreeOf(disk.own);
    ghost var honest := Partial(t, source) && Lists(m.entries, source, disk.digest, times)
      && FilesDone(t, source, FileEntries(m.entries), |FileEntries(m.entries)|);
    if honest {
      ListedDirectoriesSourced(m, source, disk.canon, disk.digest, times);
    }
    r := MakeDirectories(disk, m.entries, source);
    if honest && r.Success? {
      FilesStillDone(t, TreeOf(disk.own), source, FileEntries(m.entries));
      StagedSource(TreeOf(disk.own), m, source, disk.digest, times);
      ScannedTreeMatches(source, m, disk.digest, times);
    }
    if r.Success? {
      r := CheckStaging(disk, m);
    }
  }

  // read and hash everything, then set the modification times
  method CheckStaging(disk: Workspace, m: FolderManifest) returns (r: Result<(), CoreError>)
    requires disk.own.staging.Some? && WellFormed(m, disk.canon)
    modifies disk`dest, disk`budget, disk`others, disk`history
    ensures r == Failure(Stopped) ==> disk.budget == 0
    ensures old(disk.budget) <= disk.budget + 3 * |m.entries| + 5
    ensures Undisturbed(disk)
    ensures r.Success? ==> Matches(TreeOf(disk.own), m, disk.digest)
    ensures Matches(TreeOf(disk.own), m, disk.digest) ==> r.Success? || r == Failure(Stopped)
  {
    r := ValidateContents(disk, Staged, m);
    if r.Success? {
      r := disk.Call();
    }
  }

  lemma FilesStillDone(t: Tree, u: Tree, source: Tree, files: seq<FolderEntry>)
    requires FilesDone(t, source, files, |files|) && Extended(t, u)
    ensures FilesDone(u, source, files, |files|)
  {
    forall j | 0 <= j < |files| ensures Done(u, source, files[j].path) {
      assert Done(t, source, files[j].path);
    }
  }
}

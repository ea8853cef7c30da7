// The checkpoint a folder is resumed from: how far what is staged is complete.
module FolderTransfer {
  import opened Wrappers
  import opened Text
  import opened Names
  import opened Manifest
  import opened FolderTree
  import opened Disk
  import opened FolderStaging
  import opened FolderReceive
  import opened FolderScan

  // ---------- the checkpoint ----------

  datatype Checkpoint = Checkpoint(fileIndex: nat, offset: nat, completed: nat)

  // Staged with the listed size and digest.
  predicate Complete(t: Tree, entry: FolderEntry, digest: Digest) {
    entry.path in t && entry.kind.File? && ItemMatches(t[entry.path], entry, digest)
  }

  ghost predicate AllComplete(t: Tree, files: seq<FolderEntry>, k: nat, digest: Digest) {
    forall j :: 0 <= j < k && j < |files| ==> Complete(t, files[j], digest)
  }

  ghost predicate DistinctFiles(files: seq<FolderEntry>) {
    forall i, j :: 0 <= i < j < |files| ==> files[i].path != files[j].path
  }

  // Not there, or short of its listed size by what the offset says.
  predicate StandsAt(t: Tree, entry: FolderEntry, offset: nat) {
    if entry.path in t then t[entry.path].FileItem? && |t[entry.path].data| == offset < entry.size else offset == 0
  }

  // Every file before the checkpoint is complete; the file at it is the first that is not, and
  // holds as many bytes as the checkpoint says.
  ghost predicate CheckpointOk(t: Tree, files: seq<FolderEntry>, at: Checkpoint, digest: Digest) {
    && at.fileIndex <= |files|
    && at.completed == TotalSize(files[..at.fileIndex])
    && AllComplete(t, files, at.fileIndex, digest)
    && (if at.fileIndex < |files| then StandsAt(t, files[at.fileIndex], at.offset)
        else at.offset == 0)
  }

  // The sender's own test of the checkpoint it is told.
  predicate SenderAccepts(files: seq<FolderEntry>, at: Checkpoint) {
    && at.fileIndex <= |files|
    && at.completed == TotalSize(files[..at.fileIndex])
    && (at.fileIndex == |files| ==> at.offset == 0)
    && (at.fileIndex < |files| ==> at.offset <= files[at.fileIndex].size)
  }

  // As long as it should be, with a digest that is not the listed one.
  predicate WrongWhole(t: Tree, entry: FolderEntry, digest: Digest) {
    && entry.path in t && t[entry.path].FileItem? && |t[entry.path].data| == entry.size
    && !ItemMatches(t[entry.path], entry, digest)
  }

  // Everything is still there, except the file itself if its whole length had the wrong digest.
  ghost predicate LostOnly(before: Tree, after: Tree, entry: FolderEntry, digest: Digest) {
    forall p :: p in before ==>
      || (p in after && after[p] == before[p])
      || (p !in after && p == entry.path && WrongWhole(before, entry, digest))
  }

  ghost predicate WrongListed(t: Tree, files: seq<FolderEntry>, path: string, digest: Digest) {
    exists j :: 0 <= j < |files| && files[j].path == path && WrongWhole(t, files[j], digest)
  }

  // Nothing staged was lost or changed, except whole files with the wrong digest.
  ghost predicate NothingLost(before: Tree, after: Tree, files: seq<FolderEntry>, digest: Digest) {
    forall p :: p in before ==>
      || (p in after && after[p] == before[p])
      || WrongListed(before, files, p, digest)
  }

  lemma OneLost(t: Tree, u: Tree, files: seq<FolderEntry>, k: nat, digest: Digest)
    requires k < |files| && LostOnly(t, u, files[k], digest)
    ensures NothingLost(t, u, files, digest)
  {
    assert WrongWhole(t, files[k], digest) ==> WrongListed(t, files, files[k].path, digest);
  }

  lemma NothingLostMore(t: Tree, u: Tree, v: Tree, files: seq<FolderEntry>, k: nat, digest: Digest)
    requires k < |files| && LostOnly(t, u, files[k], digest) && NothingLost(u, v, files, digest)
    ensures NothingLost(t, v, files, digest)
  {
    OneLost(t, u, files, k, digest);
    forall p | p in t && p in u && u[p] == t[p] && WrongListed(u, files, p, digest)
      ensures WrongListed(t, files, p, digest)
    {
      var j :| 0 <= j < |files| && files[j].path == p && WrongWhole(u, files[j], digest);
      assert WrongWhole(t, files[j], digest);
    }
  }

  // How one file stands: None when complete, otherwise where to resume it.
  method CheckpointFile(disk: Workspace, entry: FolderEntry, ghost source: FsTree)
    returns (r: Result<Option<nat>, CoreError>)
    requires disk.own.staging.Some? && entry.kind.File?
    modifies disk`dest, disk`budget, disk`others, disk`history, disk`own
    ensures r == Failure(Stopped) ==> disk.budget == 0
    ensures old(disk.budget) <= disk.budget + PARENT_CALLS + 3
    ensures Undisturbed(disk) && Restaged(old(disk.own), disk.own, {})
    ensures LostOnly(TreeOf(old(disk.own)), TreeOf(disk.own), entry, disk.digest)
    ensures r == Success(None) ==> Complete(TreeOf(disk.own), entry, disk.digest)
    ensures r.Success? && r.value.Some? ==> StandsAt(TreeOf(disk.own), entry, r.value.value)
    ensures Partial(TreeOf(old(disk.own)), source) && Sourced(source, entry, disk.digest) ==>
      && Partial(TreeOf(disk.own), source)
      && (r.Success? || r == Failure(Stopped))
      && (r == Success(None) ==> Done(TreeOf(disk.own), source, entry.path))
  {
    if !ValidRelativePath(entry.path) {
      r := Failure(FolderInvalid(InvalidPath));
    } else {
      ghost var t := TreeOf(disk.own);
      var parents := EnsureParents(disk, entry.path);
      if Partial(t, source) && Sourced(source, entry, disk.digest) {
        TreeParents(source, entry.path);
        ParentsAddedPartial(t, TreeOf(disk.own), entry.path, source);
      }
      if parents.Failure? {
        r := Failure(parents.error);
      } else {
        r := InspectFile(disk, entry, source);
      }
    }
  }

  lemma WholePartial(t: Tree, source: Tree, entry: FolderEntry, digest: Digest)
    requires Partial(t, source) && Sourced(source, entry, digest) && entry.path in t
    ensures t[entry.path].FileItem? && |t[entry.path].data| <= entry.size
    ensures |t[entry.path].data| == entry.size ==> t[entry.path] == source[entry.path]
  {
    var data, whole := t[entry.path].data, source[entry.path].data;
    assert |data| == |whole| ==> data == whole[..|whole|] == whole;
  }

  // symlink_metadata, then by its length: resume, or read and hash
  method InspectFile(disk: Workspace, entry: FolderEntry, ghost source: FsTree)
    returns (r: Result<Option<nat>, CoreError>)
    requires disk.own.staging.Some? && entry.kind.File?
    modifies disk`dest, disk`budget, disk`others, disk`history, disk`own
    ensures r == Failure(Stopped) ==> disk.budget == 0
    ensures old(disk.budget) <= disk.budget + 3
    ensures Undisturbed(disk) && Restaged(old(disk.own), disk.own, {})
    ensures TreeOf(disk.own) == if r.Success? && WrongWhole(TreeOf(old(disk.own)), entry, disk.digest)
                                then TreeOf(old(disk.own)) - {entry.path} else TreeOf(old(disk.own))
    ensures r == Success(None) ==> Complete(TreeOf(disk.own), entry, disk.digest)
    ensures r.Success? && r.value.Some? ==> StandsAt(TreeOf(disk.own), entry, r.value.value)
    ensures Partial(TreeOf(old(disk.own)), source) && Sourced(source, entry, disk.digest) ==>
      && TreeOf(disk.own) == TreeOf(old(disk.own))
      && (r.Success? || r == Failure(Stopped))
      && (r == Success(None) ==> Done(TreeOf(disk.own), source, entry.path))
  {
    var met := disk.Call();
    var t := TreeOf(disk.own);
    if Partial(t, source) && Sourced(source, entry, disk.digest) && entry.path in t {
      WholePartial(t, source, entry, disk.digest);
    }
    if met.Failure? {
      r := Failure(met.error);
    } else if entry.path !in t {
      r := Success(Some(0));
    } else if !t[entry.path].FileItem? {
      r := Failure(NotRegular);
    } else if |t[entry.path].data| > entry.size {
      r := Failure(PartTooLarge);
    } else if |t[entry.path].data| < entry.size {
      r := Success(Some(|t[entry.path].data|));
    } else {
      var hashed := disk.Call();
      if hashed.Success? && !ItemMatches(t[entry.path], entry, disk.digest) {
        hashed := disk.Call(); // remove
        if hashed.Success? {
          RemoveIsTree(t, entry.path);
          disk.own := WithTree(disk.own, t - {entry.path});
        }
        r := if hashed.Success? then Success(Some(0)) else Failure(hashed.error);
      } else {
        r := if hashed.Success? then Success(None) else Failure(hashed.error);
      }
    }
  }

  lemma CheckpointMore(t: Tree, u: Tree, files: seq<FolderEntry>, k: nat, digest: Digest)
    requires k < |files| && DistinctFiles(files) && AllComplete(t, files, k, digest) && LostOnly(t, u, files[k], digest)
    ensures AllComplete(u, files, k, digest)
  {
    forall j | 0 <= j < k ensures Complete(u, files[j], digest) {
      assert Complete(t, files[j], digest) && files[j].path != files[k].path;
    }
  }

  lemma DoneMore(t: Tree, u: Tree, source: Tree, files: seq<FolderEntry>, k: nat, digest: Digest)
    requires k < |files| && DistinctFiles(files) && FilesDone(t, source, files, k) && LostOnly(t, u, files[k], digest)
    ensures FilesDone(u, source, files, k)
  {
    forall j | 0 <= j < k ensures Done(u, source, files[j].path) {
      assert Done(t, source, files[j].path) && files[j].path != files[k].path;
    }
  }

  lemma {:induction false} TotalPrefix(files: seq<FolderEntry>, k: nat)
    requires k <= |files|
    ensures TotalSize(files[..k]) <= TotalSize(files)
    decreases |files|
  {
    if k == |files| {
      assert files[..k] == files;
    } else {
      assert files[..|files| - 1][..k] == files[..k];
      TotalPrefix(files[..|files| - 1], k);
    }
  }

  // PARENT_CALLS and three more for each file.
  function CheckpointCalls(files: nat): nat {
    4100 * files
  }

  // The files in order, up to the first one that is not complete.
  method TakeCheckpoint(disk: Workspace, files: seq<FolderEntry>, index: nat, completed: nat, ghost source: FsTree)
    returns (r: Result<Checkpoint, CoreError>)
    requires disk.own.staging.Some? && AllFiles(files) && DistinctFiles(files) && index <= |files|
    requires TotalSize(files) <= MAX_FILE_SIZE
    requires AllComplete(TreeOf(disk.own), files, index, disk.digest) && completed == TotalSize(files[..index])
    modifies disk`dest, disk`budget, disk`others, disk`history, disk`own
    ensures r == Failure(Stopped) ==> disk.budget == 0
    ensures old(disk.budget) <= disk.budget + CheckpointCalls(|files| - index)
    ensures Undisturbed(disk) && Restaged(old(disk.own), disk.own, {})
    ensures r.Success? ==> CheckpointOk(TreeOf(disk.own), files, r.value, disk.digest)
    ensures NothingLost(TreeOf(old(disk.own)), TreeOf(disk.own), files, disk.digest)
    ensures Partial(TreeOf(old(disk.own)), source) && SourcedFiles(files, source, disk.digest)
            && FilesDone(TreeOf(old(disk.own)), source, files, index) ==>
      && Partial(TreeOf(disk.own), source)
      && (r.Success? || r == Failure(Stopped))
      && (r.Success? ==> FilesDone(TreeOf(disk.own), source, files, r.value.fileIndex))
    decreases |files| - index
  {
    if index == |files| {
      r := Success(Checkpoint(|files|, 0, completed));
    } else {
      ghost var t := TreeOf(disk.own);
      var stands := CheckpointFile(disk, files[index], source);
      CheckpointMore(t, TreeOf(disk.own), files, index, disk.digest);
      if FilesDone(t, source, files, index) {
        DoneMore(t, TreeOf(disk.own), source, files, index, disk.digest);
      }
      TotalMore(files, index);
      TotalPrefix(files, index + 1);
      OneLost(t, TreeOf(disk.own), files, index, disk.digest);
      if stands.Failure? {
        r := Failure(stands.error);
      } else if stands.value.Some? {
        r := Success(Checkpoint(index, stands.value.value, completed));
      } else if completed + files[index].size > U64_MAX {
        r := Failure(BadCheckpoint);
      } else {
        ghost var u := TreeOf(disk.own);
        r := TakeCheckpoint(disk, files, index + 1, completed + files[index].size, source);
        NothingLostMore(t, u, TreeOf(disk.own), files, index, disk.digest);
      }
    }
  }

  // ---------- the files of a manifest ----------

  lemma {:induction false} FilesAmong(es: seq<FolderEntry>)
    ensures |FileEntries(es)| <= |es|
  {
    if es != [] {
      FilesAmong(es[..|es| - 1]);
    }
  }

  lemma {:induction false} FilesTotal(es: seq<FolderEntry>)
    requires forall i :: 0 <= i < |es| ==> EntryOk(es[i])
    ensures TotalSize(FileEntries(es)) == TotalSize(es)
  {
    if es != [] {
      var init, last := es[..|es| - 1], es[|es| - 1];
      FilesTotal(init);
      if last.kind.File? {
        var files := FileEntries(es);
        assert files[..|files| - 1] == FileEntries(init);
      } else {
        assert EntryOk(last) && FileEntries(es) == FileEntries(init);
      }
    }
  }

  // Where in the listing each file entry comes from, in order.
  ghost predicate FilesAt(es: seq<FolderEntry>, at: seq<nat>) {
    && |at| == |FileEntries(es)|
    && (forall i :: 0 <= i < |at| ==> at[i] < |es| && es[at[i]] == FileEntries(es)[i])
    && (forall i, j :: 0 <= i < j < |at| ==> at[i] < at[j])
    && (forall i :: 0 <= i < |es| && es[i].kind.File? ==> Occurs(at, i))
  }

  ghost predicate Occurs(at: seq<nat>, i: nat) {
    exists j :: 0 <= j < |at| && at[j] == i
  }

  lemma {:induction false} FilesOrdered(es: seq<FolderEntry>) returns (at: seq<nat>)
    ensures FilesAt(es, at)
  {
    if es == [] {
      at := [];
    } else {
      var init := FilesOrdered(es[..|es| - 1]);
      at := if es[|es| - 1].kind.File? then init + [|es| - 1] else init;
      FilesAtMore(es, init, at);
    }
  }

  lemma FilesAtMore(es: seq<FolderEntry>, init: seq<nat>, at: seq<nat>)
    requires es != [] && FilesAt(es[..|es| - 1], init)
    requires at == if es[|es| - 1].kind.File? then init + [|es| - 1] else init
    ensures FilesAt(es, at)
  {
    var n := |es| - 1;
    assert forall i :: 0 <= i < |init| ==> es[init[i]] == es[..n][init[i]] == FileEntries(es)[i];
    forall i | 0 <= i < |es| && es[i].kind.File? ensures Occurs(at, i) {
      if i < n {
        assert es[..n][i] == es[i] && Occurs(init, i);
        var j :| 0 <= j < |init| && init[j] == i;
        assert at[j] == i;
      } else {
        assert at[|init|] == i;
      }
    }
  }

  lemma FilesDistinct(es: seq<FolderEntry>)
    requires Sorted(es)
    ensures DistinctFiles(FileEntries(es))
  {
    var at := FilesOrdered(es);
    var files := FileEntries(es);
    forall i, j | 0 <= i < j < |files| ensures files[i].path != files[j].path {
      if files[i].path == files[j].path {
        PathsDistinct(es, at[i], at[j]);
      }
    }
  }

  // A manifest that lists a source tree lists its files.
  lemma ListedFilesSourced(m: FolderManifest, source: FsTree, canon: Canonical, digest: Digest, times: Times)
    requires WellFormed(m, canon) && Lists(m.entries, source, digest, times)
    ensures SourcedFiles(FileEntries(m.entries), source, digest)
  {
    var es, files := m.entries, FileEntries(m.entries);
    var at := FilesOrdered(es);
    FilesDistinct(es);
    forall j | 0 <= j < |files| ensures Sourced(source, files[j], digest) {
      assert es[at[j]] == EntryOf(source, files[j].path, digest, times) && EntryOk(es[at[j]]);
    }
  }
}

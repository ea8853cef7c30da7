// The staging directory of a folder transfer: its directories, its files and the checkpoint it amounts to.
module FolderStaging {
  import opened Wrappers
  import opened Text
  import opened Names
  import opened Manifest
  import opened FolderTree
  import opened Offers
  import opened Disk
  import opened FileTransfer

  // ---------- trees ----------

  lemma AddIsTree(t: FsTree, p: string, item: Item)
    requires Named(p)
    requires ParentDir(p) != "" ==> ParentDir(p) in t && t[ParentDir(p)].DirItem?
    requires p in t && t[p].DirItem? ==> item.DirItem?
    requires item.FileItem? ==> |item.data| <= U64_MAX
    ensures IsTree(t[p := item])
  {
    var u := t[p := item];
    assert ParentDir(p) != p by {
      JoinParts(p);
    }
    forall q | q in u ensures Placed(u, q) {
      assert q != p ==> Placed(t, q);
    }
    AllPlaced(u);
  }

  // An item with a name, in a directory that is there.
  predicate Placed(t: Tree, q: string) {
    && Named(q)
    && (ParentDir(q) != "" ==> ParentDir(q) in t && t[ParentDir(q)].DirItem?)
  }

  lemma AllPlaced(t: Tree)
    requires forall q :: q in t ==> Placed(t, q)
    requires forall q :: q in t && t[q].FileItem? ==> |t[q].data| <= U64_MAX
    ensures IsTree(t)
  {
    forall q | q in t
      ensures Named(q) && (ParentDir(q) != "" ==> ParentDir(q) in t && t[ParentDir(q)].DirItem?)
    {
      assert Placed(t, q);
    }
  }

  lemma RemoveIsTree(t: FsTree, p: string)
    requires p in t && !t[p].DirItem?
    ensures IsTree(t - {p})
  {
  }

  // ---------- relative paths ----------

  lemma {:induction false} EmptyComponent(s: string, i: nat)
    requires i + 1 < |s| && s[i] == '/' && s[i + 1] == '/'
    ensures "" in Split(s, '/')
  {
    var f := FirstIndexOf(s, '/');
    if f < i {
      assert s[f + 1..][i - f - 1] == '/' && s[f + 1..][i - f] == '/';
      EmptyComponent(s[f + 1..], i - f - 1);
    } else {
      var rest := s[f + 1..];
      assert rest[0] == '/' && FirstIndexOf(rest, '/') == 0;
      assert Split(rest, '/')[0] == rest[..0] == "";
      assert Split(s, '/')[1] == "";
    }
  }

  // Every prefix of a valid path that ends before a separator names a directory the path lies in.
  lemma ValidPrefix(path: string, i: nat)
    requires ValidRelativePath(path) && i < |path| && path[i] == '/'
    ensures Named(path[..i])
    ensures ParentDir(path[..i]) != "" ==>
      exists j :: 0 < j < i && path[j] == '/' && ParentDir(path[..i]) == path[..j]
  {
    var a := path[..i];
    var k := LastIndexOf(a, '/');
    if k == i - 1 {
      EmptyComponent(path, i - 1);
    }
    if k > 0 {
      assert path[k] == '/' && a[..k] == path[..k];
    }
  }

  lemma ValidWhole(path: string)
    requires ValidRelativePath(path)
    ensures Named(path)
    ensures ParentDir(path) != "" ==> exists j :: 0 < j < |path| && path[j] == '/' && ParentDir(path) == path[..j]
  {
    var k := LastIndexOf(path, '/');
    if k > 0 {
      assert path[k] == '/';
    }
  }

  // The directories `path` lies in, up to its first `n` characters, are in the tree.
  ghost predicate ParentsIn(t: Tree, path: string, n: nat)
    requires n <= |path|
  {
    forall i :: 0 <= i < n && path[i] == '/' ==> path[..i] in t && t[path[..i]].DirItem?
  }

  lemma {:induction false} TreeParents(t: FsTree, path: string)
    requires path in t
    ensures ParentsIn(t, path, |path|)
    decreases |path|
  {
    var parent := ParentDir(path);
    JoinParts(path);
    if parent != "" {
      TreeParents(t, parent);
      forall i | 0 <= i < |path| && path[i] == '/' ensures path[..i] in t && t[path[..i]].DirItem? {
        if i < |parent| {
          assert parent[i] == '/' && parent[..i] == path[..i];
        } else {
          assert i == |parent| && path[..i] == parent;
        }
      }
    } else {
      assert LastIndexOf(path, '/') <= 0;
    }
  }

  // Nothing but a directory is in the way of one there.
  predicate Free(t: Tree, p: string) {
    p in t ==> t[p].DirItem?
  }

  ghost predicate ParentsFree(t: Tree, path: string) {
    forall i :: 0 <= i < |path| && path[i] == '/' ==> Free(t, path[..i])
  }

  // The tree with some of the directories `path` lies in added.
  ghost predicate ParentsAdded(before: Tree, after: Tree, path: string) {
    && (forall p :: p in before ==> p in after && after[p] == before[p])
    && (forall p :: p in after && p !in before ==> after[p].DirItem? && IsAncestor(p, path))
  }

  // ---------- a source and what has arrived of it ----------

  // Everything staged is the source's: its directories, and beginnings of its files.
  ghost predicate Partial(u: Tree, source: Tree) {
    forall p :: p in u ==> p in source && PartialItem(u[p], source[p])
  }

  predicate PartialItem(item: Item, source: Item) {
    || (item.DirItem? && source.DirItem?)
    || (item.FileItem? && source.FileItem? && item.data <= source.data)
  }

  lemma ParentsAddedPartial(before: Tree, after: Tree, path: string, source: FsTree)
    requires ParentsAdded(before, after, path) && Partial(before, source) && path in source
    ensures Partial(after, source)
  {
    TreeParents(source, path);
  }

  // ---------- the staging directory on disk ----------

  // Only the staging directory changed, and its new bytes were written under one of `added`.
  ghost predicate Restaged(before: Sidecars, after: Sidecars, added: set<(StoredOffer, FolderManifest)>) {
    && before.staging.Some? && after.staging.Some?
    && after == before.(staging := after.staging)
    && after.staging.value.writers <= before.staging.value.writers + added
  }

  // As many calls at most: one for the staging directory and one for each directory in the path.
  const PARENT_CALLS: nat := MAX_FOLDER_PATH_BYTES + 1

  // `ensure_safe_parent_directories`
  method EnsureParents(disk: Workspace, path: string) returns (r: Result<(), CoreError>)
    requires disk.own.staging.Some? && ValidRelativePath(path)
    modifies disk`dest, disk`budget, disk`others, disk`history, disk`own
    ensures r == Failure(Stopped) ==> disk.budget == 0
    ensures old(disk.budget) <= disk.budget + PARENT_CALLS
    ensures Undisturbed(disk) && Restaged(old(disk.own), disk.own, {})
    ensures ParentsAdded(TreeOf(old(disk.own)), TreeOf(disk.own), path)
    ensures r.Success? ==> ParentsIn(TreeOf(disk.own), path, |path|)
    ensures r.Failure? ==> r.error == Stopped || r.error == NotRegular
    ensures r == Failure(NotRegular) ==> !ParentsFree(TreeOf(old(disk.own)), path)
  {
    Utf8AtLeast(path);
    r := disk.Call(); // symlink_metadata of the staging directory
    var i := 0;
    while i < |path| && r.Success?
      invariant i <= |path| && (r == Failure(Stopped) ==> disk.budget == 0)
      invariant old(disk.budget) <= disk.budget + 1 + i
      invariant Undisturbed(disk) && Restaged(old(disk.own), disk.own, {})
      invariant ParentsAdded(TreeOf(old(disk.own)), TreeOf(disk.own), path)
      invariant r.Success? ==> ParentsIn(TreeOf(disk.own), path, i)
      invariant r.Failure? ==> r.error == Stopped || r.error == NotRegular
      invariant r == Failure(NotRegular) ==> !ParentsFree(TreeOf(old(disk.own)), path)
    {
      if path[i] == '/' {
        r := MakeDirectory(disk, path, i);
      }
      i := i + 1;
    }
  }

  lemma AddParentTree(t: FsTree, path: string, i: nat)
    requires ValidRelativePath(path) && i < |path| && path[i] == '/' && ParentsIn(t, path, i)
    requires path[..i] !in t
    ensures IsTree(t[path[..i] := DirItem])
  {
    ValidPrefix(path, i);
    AddIsTree(t, path[..i], DirItem);
  }

  lemma AddParent(t: Tree, path: string, i: nat)
    requires i < |path| && path[i] == '/' && ParentsIn(t, path, i) && path[..i] !in t
    ensures ParentsAdded(t, t[path[..i] := DirItem], path)
    ensures ParentsIn(t[path[..i] := DirItem], path, i + 1)
  {
    assert IsAncestor(path[..i], path);
  }

  // create_dir, or the check of what is there
  method MakeDirectory(disk: Workspace, path: string, i: nat) returns (r: Result<(), CoreError>)
    requires disk.own.staging.Some? && ValidRelativePath(path)
    requires i < |path| && path[i] == '/' && ParentsIn(TreeOf(disk.own), path, i)
    modifies disk`dest, disk`budget, disk`others, disk`history, disk`own
    ensures r == Failure(Stopped) ==> disk.budget == 0
    ensures old(disk.budget) <= disk.budget + 1
    ensures Undisturbed(disk)
    ensures Restaged(old(disk.own), disk.own, {})
    ensures ParentsAdded(TreeOf(old(disk.own)), TreeOf(disk.own), path)
    ensures r.Success? ==> ParentsIn(TreeOf(disk.own), path, i + 1)
    ensures r.Failure? ==> r.error == Stopped || r.error == NotRegular
    ensures r == Failure(NotRegular) ==> !Free(TreeOf(old(disk.own)), path[..i])
  {
    r := disk.Call();
    if r.Success? {
      var directory, t := path[..i], TreeOf(disk.own);
      if directory !in t {
        AddParentTree(t, path, i);
        AddParent(t, path, i);
        disk.own := WithTree(disk.own, t[directory := DirItem]);
      } else if !t[directory].DirItem? {
        r := Failure(NotRegular);
      }
    }
  }

  // ---------- one file ----------

  // The file at `path` now holds `data`; nothing else changed but missing directories around it.
  ghost predicate FileSet(before: Tree, after: Tree, path: string, data: seq<byte>) {
    ParentsAdded(before[path := FileItem(data)], after, path)
  }

  // A checkpoint from which a file can be continued: nothing, or as many bytes as it says.
  ghost predicate CanOpen(t: Tree, entry: FolderEntry, offset: nat) {
    && entry.kind.File? && offset <= entry.size && ValidRelativePath(entry.path) && ParentsFree(t, entry.path)
    && (entry.path in t ==> t[entry.path].FileItem?)
    && (offset > 0 ==> entry.path in t && |t[entry.path].data| == offset)
  }

  function Kept(t: Tree, path: string, offset: nat): seq<byte> {
    if offset > 0 && path in t && t[path].FileItem? then t[path].data else []
  }

  lemma SetFileIsTree(t: FsTree, path: string, data: seq<byte>)
    requires ValidRelativePath(path) && ParentsIn(t, path, |path|) && (path in t ==> t[path].FileItem?)
             && |data| <= U64_MAX
    ensures IsTree(t[path := FileItem(data)])
  {
    ValidWhole(path);
    AddIsTree(t, path, FileItem(data));
  }

  // The file to append to, emptied unless it is resumed.
  method OpenFolderFile(disk: Workspace, entry: FolderEntry, offset: nat) returns (r: Result<(), CoreError>)
    requires disk.own.staging.Some?
    modifies disk`dest, disk`budget, disk`others, disk`history, disk`own
    ensures r == Failure(Stopped) ==> disk.budget == 0
    ensures old(disk.budget) <= disk.budget + PARENT_CALLS + 2
    ensures Undisturbed(disk) && Restaged(old(disk.own), disk.own, {})
    ensures r.Success? ==>
      && offset == |Kept(TreeOf(old(disk.own)), entry.path, offset)| <= entry.size && ValidRelativePath(entry.path)
      && FileSet(TreeOf(old(disk.own)), TreeOf(disk.own), entry.path, Kept(TreeOf(old(disk.own)), entry.path, offset))
    ensures r.Failure? ==> ParentsAdded(TreeOf(old(disk.own)), TreeOf(disk.own), entry.path)
    ensures r.Failure? && CanOpen(TreeOf(old(disk.own)), entry, offset) ==> r.error == Stopped
  {
    if !entry.kind.File? || offset > entry.size {
      r := Failure(BadCheckpoint);
    } else if !ValidRelativePath(entry.path) {
      r := Failure(FolderInvalid(InvalidPath));
    } else {
      r := EnsureParents(disk, entry.path);
      if r.Success? {
        r := OpenInPlace(disk, entry.path, offset);
      }
    }
  }

  // symlink_metadata, then open with `truncate(offset == 0)`
  method OpenInPlace(disk: Workspace, path: string, offset: nat) returns (r: Result<(), CoreError>)
    requires disk.own.staging.Some? && ValidRelativePath(path) && ParentsIn(TreeOf(disk.own), path, |path|)
    modifies disk`dest, disk`budget, disk`others, disk`history, disk`own
    ensures r == Failure(Stopped) ==> disk.budget == 0
    ensures old(disk.budget) <= disk.budget + 2
    ensures Undisturbed(disk) && Restaged(old(disk.own), disk.own, {})
    ensures r.Success? ==>
      && offset == |Kept(TreeOf(old(disk.own)), path, offset)|
      && TreeOf(disk.own) == TreeOf(old(disk.own))[path := FileItem(Kept(TreeOf(old(disk.own)), path, offset))]
    ensures r.Failure? ==> disk.own == old(disk.own)
    ensures var t := TreeOf(old(disk.own));
      r.Failure? && (path in t ==> t[path].FileItem?) && (offset > 0 ==> path in t && |t[path].data| == offset) ==>
        r.error == Stopped
  {
    r := disk.Call();
    var t := TreeOf(disk.own);
    if r.Failure? {
    } else if path in t && !t[path].FileItem? {
      r := Failure(NotRegular);
    } else if offset > 0 && (path !in t || |t[path].data| != offset) {
      r := Failure(BadCheckpoint);
    } else {
      r := disk.Call();
      if r.Success? {
        SetFileIsTree(t, path, Kept(t, path, offset));
        disk.own := WithTree(disk.own, t[path := FileItem(Kept(t, path, offset))]);
      }
    }
  }

  // ---------- receiving one file ----------

  // The sidecars with `data` at `path`, written under `writer`.
  ghost predicate Wrote(before: Sidecars, after: Sidecars, writer: (StoredOffer, FolderManifest), path: string,
                        data: seq<byte>)
    requires before.staging.Some?
  {
    Restaged(before, after, {writer}) && TreeOf(after) == TreeOf(before)[path := FileItem(data)]
  }

  // One write; a stop during it may leave any beginning of the chunk.
  method AppendFile(disk: Workspace, writer: (StoredOffer, FolderManifest), path: string, chunk: seq<byte>, torn: nat)
    returns (r: Result<(), CoreError>, ghost written: nat)
    requires disk.own.staging.Some? && path in TreeOf(disk.own) && TreeOf(disk.own)[path].FileItem?
    requires |TreeOf(disk.own)[path].data| + |chunk| <= U64_MAX
    modifies disk`dest, disk`budget, disk`others, disk`history, disk`own
    ensures r == Failure(Stopped) ==> disk.budget == 0
    ensures old(disk.budget) <= disk.budget + (if r.Success? then 1 else 0)
    ensures Undisturbed(disk)
    ensures written <= |chunk|
    ensures Wrote(old(disk.own), disk.own, writer, path, TreeOf(old(disk.own))[path].data + chunk[..written])
    ensures r.Success? ==> written == |chunk|
    ensures r.Failure? ==> r.error == Stopped
  {
    r := disk.Call();
    var n := if r.Success? then |chunk| else torn % (|chunk| + 1);
    var t := TreeOf(disk.own);
    var data := t[path].data + chunk[..n];
    AppendIsTree(t, path, data);
    var staging := Staging(t[path := FileItem(data)], disk.own.staging.value.writers + {writer});
    disk.own := disk.own.(staging := Some(staging));
    written := n;
  }

  lemma AppendIsTree(t: FsTree, path: string, data: seq<byte>)
    requires path in t && t[path].FileItem? && |data| <= U64_MAX
    ensures IsTree(t[path := FileItem(data)])
  {
    assert Named(path);
    AddIsTree(t, path, FileItem(data));
  }

  lemma WroteTwice(a: Sidecars, b: Sidecars, c: Sidecars, writer: (StoredOffer, FolderManifest), path: string,
                   data: seq<byte>, s: seq<byte>, k: nat, read: nat, m: nat)
    requires a.staging.Some? && k + read <= |s| && m <= read
    requires Wrote(a, b, writer, path, data + s[..k])
             && Wrote(b, c, writer, path, (data + s[..k]) + s[k..][..read][..m])
    ensures Wrote(a, c, writer, path, data + s[..k + m])
  {
    assert (data + s[..k]) + s[k..][..read][..m] == data + s[..k + m];
    var t := TreeOf(a);
    assert t[path := FileItem(data + s[..k])][path := FileItem(data + s[..k + m])]
        == t[path := FileItem(data + s[..k + m])];
  }

  // The read loop of one file: it takes exactly what the file still misses off the stream.
  method ReceiveEntry(disk: Workspace, writer: (StoredOffer, FolderManifest), entry: FolderEntry,
                      incoming: seq<byte>, readSize: nat -> nat, torn: nat)
    returns (r: Result<seq<byte>, CoreError>, ghost taken: nat)
    requires disk.own.staging.Some? && entry.path in TreeOf(disk.own) && TreeOf(disk.own)[entry.path].FileItem?
    requires |TreeOf(disk.own)[entry.path].data| <= entry.size
    modifies disk`dest, disk`budget, disk`others, disk`history, disk`own
    ensures r == Failure(Stopped) ==> disk.budget == 0
    ensures old(disk.budget) <= disk.budget + taken + 1
    ensures Undisturbed(disk)
    ensures taken <= |incoming|
    ensures Wrote(old(disk.own), disk.own, writer, entry.path,
                  TreeOf(old(disk.own))[entry.path].data + incoming[..taken])
    ensures |TreeOf(old(disk.own))[entry.path].data| + taken <= entry.size
    ensures r.Success? ==>
      |TreeOf(old(disk.own))[entry.path].data| + taken == entry.size && r.value == incoming[taken..]
    ensures r.Failure? && r != Failure(Stopped) ==>
      && r.error == SenderDisconnected && taken == |incoming|
      && |TreeOf(old(disk.own))[entry.path].data| + taken < entry.size
  {
    ghost var start := disk.own;
    var path := entry.path;
    ghost var data := TreeOf(disk.own)[path].data;
    var received := |TreeOf(disk.own)[path].data|;
    taken := 0;
    var rest := incoming;
    var done: Result<(), CoreError> := Success(());
    StartWriting(start, writer, path, incoming);
    while received < entry.size && done.Success?
      invariant Undisturbed(disk) && (done == Failure(Stopped) ==> disk.budget == 0)
      invariant old(disk.budget) <= disk.budget + taken + (if done == Failure(SenderDisconnected) then 1 else 0)
      invariant taken <= |incoming| && |data| + taken <= entry.size
      invariant Wrote(start, disk.own, writer, path, data + incoming[..taken])
      invariant done.Success? ==> rest == incoming[taken..] && received == |data| + taken
      invariant done.Failure? && done != Failure(Stopped) ==>
        done.error == SenderDisconnected && taken == |incoming| && |data| + taken < entry.size
      decreases entry.size - received, done.Success?
    {
      var wanted := if entry.size - received < TRANSFER_BUFFER_SIZE then entry.size - received
                    else TRANSFER_BUFFER_SIZE;
      var available := if |rest| < wanted then |rest| else wanted;
      if available == 0 {
        var _ := disk.Call(); // sync_data
        done := Failure(SenderDisconnected);
      } else {
        var read := 1 + readSize(received) % available;
        ghost var before := disk.own;
        ghost var written;
        done, written := AppendFile(disk, writer, path, rest[..read], torn);
        WroteTwice(start, before, disk.own, writer, path, data, incoming, taken, read, written);
        taken := taken + written;
        rest := rest[read..];
        received := received + read;
      }
    }
    if done.Success? {
      done := disk.Call(); // sync_all
    }
    r := if done.Success? then Success(rest) else Failure(done.error);
  }

  lemma StartWriting(start: Sidecars, writer: (StoredOffer, FolderManifest), path: string, s: seq<byte>)
    requires start.staging.Some? && path in TreeOf(start) && TreeOf(start)[path].FileItem?
    ensures Wrote(start, start, writer, path, TreeOf(start)[path].data + s[..0])
  {
    var data := TreeOf(start)[path].data;
    assert TreeOf(start)[path := FileItem(data)] == TreeOf(start);
    assert data + s[..0] == data;
  }
}

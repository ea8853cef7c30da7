// Cutting the sender's single stream back into files, one after another from a checkpoint.
module FolderReceive {
  import opened Wrappers
  import opened Text
  import opened Names
  import opened Manifest
  import opened FolderTree
  import opened Offers
  import opened Disk
  import opened FolderStaging

  // What the sender writes from a checkpoint on: the rest of one file, then the later ones.
  function Wire(files: seq<FolderEntry>, source: Tree, k: nat, offset: nat): seq<byte>
    decreases |files| - k
  {
    if k >= |files| then [] else Remainder(source, files[k].path, offset) + Wire(files, source, k + 1, 0)
  }

  function Remainder(source: Tree, path: string, offset: nat): seq<byte> {
    if path in source && source[path].FileItem? && offset <= |source[path].data| then source[path].data[offset..]
    else []
  }

  // The listed file is the source's.
  predicate Sourced(source: Tree, entry: FolderEntry, digest: Digest) {
    && entry.kind.File? && ValidRelativePath(entry.path) && entry.path in source
    && ItemMatches(source[entry.path], entry, digest)
  }

  // What a resumed file has to hold: as many bytes as the checkpoint says, or nothing to be kept.
  predicate AtOffset(t: Tree, path: string, offset: nat) {
    offset > 0 ==> path in t && t[path].FileItem? && |t[path].data| == offset
  }

  lemma SourcedOpens(t: Tree, source: FsTree, entry: FolderEntry, offset: nat, digest: Digest)
    requires Partial(t, source) && Sourced(source, entry, digest) && AtOffset(t, entry.path, offset)
    ensures CanOpen(t, entry, offset)
    ensures Kept(t, entry.path, offset) == source[entry.path].data[..offset]
  {
    TreeParents(source, entry.path);
  }

  // blake3 and size of a received file; a wrong one is thrown away.
  method VerifyFolderFile(disk: Workspace, entry: FolderEntry) returns (r: Result<(), CoreError>)
    requires disk.own.staging.Some? && entry.kind.File?
    modifies disk`dest, disk`budget, disk`others, disk`history, disk`own
    ensures r == Failure(Stopped) ==> disk.budget == 0
    ensures old(disk.budget) <= disk.budget + PARENT_CALLS + 3
    ensures Undisturbed(disk) && Restaged(old(disk.own), disk.own, {})
    ensures r.Success? ==>
      entry.path in TreeOf(disk.own) && ItemMatches(TreeOf(disk.own)[entry.path], entry, disk.digest)
    ensures r == Failure(DigestMismatch) ==> entry.path !in TreeOf(disk.own)
    ensures ValidRelativePath(entry.path) && entry.path in TreeOf(old(disk.own))
            && ItemMatches(TreeOf(old(disk.own))[entry.path], entry, disk.digest)
            && ParentsFree(TreeOf(old(disk.own)), entry.path) ==>
      ParentsAdded(TreeOf(old(disk.own)), TreeOf(disk.own), entry.path) && (r.Success? || r == Failure(Stopped))
  {
    if !ValidRelativePath(entry.path) {
      r := Failure(FolderInvalid(InvalidPath));
    } else {
      r := EnsureParents(disk, entry.path);
      if r.Success? {
        r := CheckFolderFile(disk, entry);
      }
    }
  }

  // symlink_metadata, read and hash; then set the modification time, or remove the file
  method CheckFolderFile(disk: Workspace, entry: FolderEntry) returns (r: Result<(), CoreError>)
    requires disk.own.staging.Some? && entry.kind.File?
    modifies disk`dest, disk`budget, disk`others, disk`history, disk`own
    ensures r == Failure(Stopped) ==> disk.budget == 0
    ensures old(disk.budget) <= disk.budget + 3
    ensures Undisturbed(disk) && Restaged(old(disk.own), disk.own, {})
    ensures TreeOf(disk.own) == if r == Failure(DigestMismatch) then TreeOf(old(disk.own)) - {entry.path}
                                else TreeOf(old(disk.own))
    ensures var t := TreeOf(old(disk.own));
      if r.Success? then entry.path in t && ItemMatches(t[entry.path], entry, disk.digest)
      else || r == Failure(Stopped)
           || (r == Failure(NotRegular) && (entry.path !in t || t[entry.path].DirItem?))
           || (r == Failure(DigestMismatch) && entry.path in t && !ItemMatches(t[entry.path], entry, disk.digest))
    ensures entry.path in TreeOf(old(disk.own))
            && ItemMatches(TreeOf(old(disk.own))[entry.path], entry, disk.digest) ==>
      disk.own == old(disk.own) && (r.Success? || r == Failure(Stopped))
  {
    r := disk.Update([disk.own, disk.own]);
    var t := TreeOf(disk.own);
    if r.Failure? {
    } else if entry.path !in t {
      r := Failure(NotRegular);
    } else {
      r := disk.Call();
      if r.Success? && !ItemMatches(t[entry.path], entry, disk.digest) {
        if t[entry.path].DirItem? {
          r := Failure(NotRegular);
        } else {
          RemoveIsTree(t, entry.path);
          disk.own := WithTree(disk.own, t - {entry.path});
          r := Failure(DigestMismatch);
        }
      }
    }
  }

  lemma FileSetPartial(t: Tree, u: Tree, path: string, data: seq<byte>, source: FsTree)
    requires Partial(t, source) && FileSet(t, u, path, data)
    requires path in source && source[path].FileItem? && data <= source[path].data
    ensures Partial(u, source) && ParentsFree(u, path)
  {
    assert Partial(t[path := FileItem(data)], source);
    ParentsAddedPartial(t[path := FileItem(data)], u, path, source);
    TreeParents(source, path);
  }

  lemma FileSetAgain(t: Tree, u: Tree, path: string, data: seq<byte>, more: seq<byte>)
    requires FileSet(t, u, path, data)
    ensures FileSet(t, u[path := FileItem(more)], path, more)
  {
  }

  lemma FileSetParents(t: Tree, u: Tree, v: Tree, path: string, data: seq<byte>)
    requires FileSet(t, u, path, data) && ParentsAdded(u, v, path)
    ensures FileSet(t, v, path, data)
  {
  }

  // A stream that agrees with what follows `offset` in the source, as far as both go.
  ghost predicate Agrees(incoming: seq<byte>, source: Tree, path: string, offset: nat) {
    incoming <= Remainder(source, path, offset) || Remainder(source, path, offset) <= incoming
  }

  lemma AgreeingBytes(incoming: seq<byte>, source: Tree, path: string, offset: nat, taken: nat)
    requires Agrees(incoming, source, path, offset) && taken <= |incoming|
    requires path in source && source[path].FileItem? && offset + taken <= |source[path].data|
    ensures source[path].data[..offset] + incoming[..taken] == source[path].data[..offset + taken]
    ensures offset + taken == |source[path].data| ==> incoming == Remainder(source, path, offset) + incoming[taken..]
  {
    var d, rest := source[path].data, Remainder(source, path, offset);
    assert incoming[..taken] == rest[..taken];
    assert d[..offset] + d[offset..][..taken] == d[..offset + taken];
    assert incoming == incoming[..taken] + incoming[taken..];
    assert offset + taken == |d| ==> rest[..taken] == rest;
  }

  // What an unchanged source and a matching checkpoint mean for one file.
  ghost predicate HonestFile(t: Tree, source: Tree, entry: FolderEntry, offset: nat, incoming: seq<byte>,
                             digest: Digest) {
    && Partial(t, source) && Sourced(source, entry, digest) && AtOffset(t, entry.path, offset)
    && offset <= entry.size && Agrees(incoming, source, entry.path, offset)
  }

  // The file got exactly what it missed, is complete, and nothing else changed.
  ghost predicate FileReceived(t: Tree, u: Tree, source: Tree, entry: FolderEntry, offset: nat, incoming: seq<byte>,
                               rest: seq<byte>)
    requires entry.path in source && source[entry.path].FileItem?
  {
    FileSet(t, u, entry.path, source[entry.path].data) && incoming == Remainder(source, entry.path, offset) + rest
  }

  lemma HonestBytes(t0: Tree, t1: Tree, t2: Tree, source: FsTree, entry: FolderEntry, offset: nat, incoming: seq<byte>,
                    taken: nat, digest: Digest)
    requires HonestFile(t0, source, entry, offset, incoming, digest)
    requires FileSet(t0, t1, entry.path, source[entry.path].data[..offset])
    requires taken <= |incoming| && offset + taken <= entry.size
    requires t2 == t1[entry.path := FileItem(source[entry.path].data[..offset] + incoming[..taken])]
    ensures Partial(t2, source) && ParentsFree(t2, entry.path)
    ensures offset + taken == entry.size ==>
      && FileReceived(t0, t2, source, entry, offset, incoming, incoming[taken..])
      && ItemMatches(t2[entry.path], entry, digest)
    ensures taken == |incoming| && offset + taken < entry.size ==> !(Remainder(source, entry.path, offset) <= incoming)
  {
    var path, data := entry.path, source[entry.path].data;
    AgreeingBytes(incoming, source, path, offset, taken);
    FileSetAgain(t0, t1, path, data[..offset], data[..offset + taken]);
    FileSetPartial(t0, t2, path, data[..offset + taken], source);
    assert offset + taken == entry.size ==> data[..offset + taken] == data;
  }

  lemma VerifiedFile(t0: Tree, t2: Tree, t3: Tree, source: FsTree, entry: FolderEntry, offset: nat, incoming: seq<byte>,
                     rest: seq<byte>, digest: Digest)
    requires HonestFile(t0, source, entry, offset, incoming, digest)
    requires FileReceived(t0, t2, source, entry, offset, incoming, rest) && ParentsAdded(t2, t3, entry.path)
    ensures FileReceived(t0, t3, source, entry, offset, incoming, rest) && Partial(t3, source)
  {
    var path, data := entry.path, source[entry.path].data;
    FileSetParents(t0, t2, t3, path, data);
    FileSetPartial(t0, t3, path, data, source);
  }

  const FILE_CALLS: nat := 2 * PARENT_CALLS + 6

  // FILE_CALLS for each file, besides one for each byte.
  function StreamCalls(files: nat): nat {
    8200 * files
  }

  // One file of the stream: opened, filled, verified.
  method ReceiveFolderFile(disk: Workspace, writer: (StoredOffer, FolderManifest), entry: FolderEntry, offset: nat,
                           incoming: seq<byte>, readSize: nat -> nat, torn: nat, ghost source: FsTree)
    returns (r: Result<seq<byte>, CoreError>)
    requires disk.own.staging.Some? && entry.kind.File?
    modifies disk`dest, disk`budget, disk`others, disk`history, disk`own
    ensures r == Failure(Stopped) ==> disk.budget == 0
    ensures old(disk.budget) + (if r.Success? then |r.value| else 0) <= disk.budget + |incoming| + FILE_CALLS
    ensures Undisturbed(disk) && Restaged(old(disk.own), disk.own, {writer})
    ensures r.Success? ==> |r.value| <= |incoming| && r.value == incoming[|incoming| - |r.value|..]
    ensures r.Success? ==>
      entry.path in TreeOf(disk.own) && ItemMatches(TreeOf(disk.own)[entry.path], entry, disk.digest)
    // From an unchanged source it gets exactly what it misses, and the file is complete.
    ensures HonestFile(TreeOf(old(disk.own)), source, entry, offset, incoming, disk.digest) ==>
      && Partial(TreeOf(disk.own), source)
      && (r.Success? ==>
           FileReceived(TreeOf(old(disk.own)), TreeOf(disk.own), source, entry, offset, incoming, r.value))
      && (r.Failure? && Remainder(source, entry.path, offset) <= incoming ==> r == Failure(Stopped))
  {
    ghost var t0 := TreeOf(disk.own);
    ghost var honest := HonestFile(t0, source, entry, offset, incoming, disk.digest);
    if honest {
      SourcedOpens(t0, source, entry, offset, disk.digest);
    }
    var ready := OpenFolderFile(disk, entry, offset);
    if ready.Failure? {
      if honest {
        ParentsAddedPartial(t0, TreeOf(disk.own), entry.path, source);
      }
      r := Failure(ready.error);
    } else {
      r := FillFolderFile(disk, writer, entry, offset, incoming, readSize, torn, t0, source);
    }
  }

  method FillFolderFile(disk: Workspace, writer: (StoredOffer, FolderManifest), entry: FolderEntry, ghost offset: nat,
                        incoming: seq<byte>, readSize: nat -> nat, torn: nat, ghost t0: Tree, ghost source: FsTree)
    returns (r: Result<seq<byte>, CoreError>)
    requires disk.own.staging.Some? && entry.kind.File?
    requires entry.path in TreeOf(disk.own) && TreeOf(disk.own)[entry.path].FileItem?
    requires |TreeOf(disk.own)[entry.path].data| == offset <= entry.size
    requires HonestFile(t0, source, entry, offset, incoming, disk.digest) ==>
      FileSet(t0, TreeOf(disk.own), entry.path, source[entry.path].data[..offset])
    modifies disk`dest, disk`budget, disk`others, disk`history, disk`own
    ensures r == Failure(Stopped) ==> disk.budget == 0
    ensures old(disk.budget) + (if r.Success? then |r.value| else 0) <= disk.budget + |incoming| + PARENT_CALLS + 4
    ensures Undisturbed(disk) && Restaged(old(disk.own), disk.own, {writer})
    ensures r.Success? ==> |r.value| <= |incoming| && r.value == incoming[|incoming| - |r.value|..]
    ensures r.Success? ==>
      entry.path in TreeOf(disk.own) && ItemMatches(TreeOf(disk.own)[entry.path], entry, disk.digest)
    ensures r == Failure(DigestMismatch) ==> entry.path !in TreeOf(disk.own)
    ensures HonestFile(t0, source, entry, offset, incoming, disk.digest) ==>
      && Partial(TreeOf(disk.own), source)
      && (r.Success? ==> FileReceived(t0, TreeOf(disk.own), source, entry, offset, incoming, r.value))
      && (r.Failure? && Remainder(source, entry.path, offset) <= incoming ==> r == Failure(Stopped))
  {
    ghost var honest := HonestFile(t0, source, entry, offset, incoming, disk.digest);
    ghost var t1 := TreeOf(disk.own);
    ghost var taken;
    r, taken := ReceiveEntry(disk, writer, entry, incoming, readSize, torn);
    ghost var t2 := TreeOf(disk.own);
    if honest {
      HonestBytes(t0, t1, t2, source, entry, offset, incoming, taken, disk.digest);
    }
    if r.Success? {
      var verified := VerifyFolderFile(disk, entry);
      if honest {
        VerifiedFile(t0, t2, TreeOf(disk.own), source, entry, offset, incoming, r.value, disk.digest);
      }
      if verified.Failure? {
        r := Failure(verified.error);
      }
    }
  }

  // ---------- all files ----------

  ghost predicate FilesDone(t: Tree, source: Tree, files: seq<FolderEntry>, k: nat) {
    forall j :: 0 <= j < k && j < |files| ==> Done(t, source, files[j].path)
  }

  predicate Done(t: Tree, source: Tree, path: string) {
    path in t && path in source && t[path] == source[path]
  }

  ghost predicate SourcedFiles(files: seq<FolderEntry>, source: Tree, digest: Digest) {
    && (forall j :: 0 <= j < |files| ==> Sourced(source, files[j], digest))
    && (forall i, j :: 0 <= i < j < |files| ==> files[i].path != files[j].path)
  }

  // From the k-th file on: everything before it is complete, it is at `offset`, and the stream
  // agrees with the wire as far as both go.
  ghost predicate HonestRest(t: Tree, source: Tree, files: seq<FolderEntry>, k: nat, offset: nat, rest: seq<byte>,
                             digest: Digest) {
    && Partial(t, source) && SourcedFiles(files, source, digest) && FilesDone(t, source, files, k)
    && (if k < |files| then AtOffset(t, files[k].path, offset) && offset <= files[k].size else offset == 0)
    && (rest <= Wire(files, source, k, offset) || Wire(files, source, k, offset) <= rest)
  }

  lemma HonestNext(t: Tree, source: Tree, files: seq<FolderEntry>, k: nat, offset: nat, rest: seq<byte>, digest: Digest)
    requires HonestRest(t, source, files, k, offset, rest, digest) && k < |files|
    ensures HonestFile(t, source, files[k], offset, rest, digest)
    ensures rest == Wire(files, source, k, offset) ==> Remainder(source, files[k].path, offset) <= rest
  {
    var first, more := Remainder(source, files[k].path, offset), Wire(files, source, k + 1, 0);
    assert Wire(files, source, k, offset) == first + more;
    PrefixOfSum(rest, first, more);
  }

  lemma PrefixOfSum<T>(s: seq<T>, a: seq<T>, b: seq<T>)
    requires s <= a + b || a + b <= s
    ensures s <= a || a <= s
    ensures s == a + b ==> a <= s
  {
    if s <= a + b {
      assert s == (a + b)[..|s|];
      if |s| <= |a| {
        assert s == a[..|s|];
      } else {
        assert s[..|a|] == a;
      }
    } else {
      assert s[..|a + b|] == a + b;
      assert s[..|a|] == a;
    }
  }

  lemma RestOfSum<T>(s: seq<T>, a: seq<T>, b: seq<T>, c: seq<T>)
    requires s == a + c && (s <= a + b || a + b <= s)
    ensures c <= b || b <= c
    ensures s == a + b <==> c == b
  {
    assert c == s[|a|..] && b == (a + b)[|a|..];
    if s <= a + b {
      assert s == (a + b)[..|s|];
      assert c == b[..|c|];
    } else {
      assert s[..|a + b|] == a + b;
      assert c[..|b|] == b;
    }
  }

  lemma HonestStep(t: Tree, u: Tree, source: Tree, files: seq<FolderEntry>, k: nat, offset: nat, rest: seq<byte>,
                   left: seq<byte>, digest: Digest)
    requires HonestRest(t, source, files, k, offset, rest, digest) && k < |files|
    requires Partial(u, source) && FileReceived(t, u, source, files[k], offset, rest, left)
    ensures HonestRest(u, source, files, k + 1, 0, left, digest)
    ensures rest == Wire(files, source, k, offset) <==> left == Wire(files, source, k + 1, 0)
  {
    var first, more := Remainder(source, files[k].path, offset), Wire(files, source, k + 1, 0);
    assert Wire(files, source, k, offset) == first + more && rest == first + left;
    RestOfSum(rest, first, more, left);
    NextDone(t, u, source, files, k, digest);
  }

  lemma NextDone(t: Tree, u: Tree, source: Tree, files: seq<FolderEntry>, k: nat, digest: Digest)
    requires SourcedFiles(files, source, digest) && FilesDone(t, source, files, k) && k < |files|
    requires Sourced(source, files[k], digest) && FileSet(t, u, files[k].path, source[files[k].path].data)
    ensures FilesDone(u, source, files, k + 1)
  {
    forall j | 0 <= j < k + 1 ensures Done(u, source, files[j].path) {
      if j < k {
        assert Done(t, source, files[j].path);
      }
    }
  }

  lemma {:induction false} TotalMore(files: seq<FolderEntry>, k: nat)
    requires k < |files|
    ensures TotalSize(files[..k + 1]) == TotalSize(files[..k]) + files[k].size
  {
    assert files[..k + 1][..k] == files[..k];
  }

  lemma RemainderSize(source: Tree, entry: FolderEntry, offset: nat, digest: Digest)
    requires Sourced(source, entry, digest)
    ensures |Remainder(source, entry.path, offset)| <= entry.size
  {
  }

  lemma {:induction false} WireSize(files: seq<FolderEntry>, source: Tree, k: nat, offset: nat, digest: Digest)
    requires SourcedFiles(files, source, digest) && k <= |files|
    ensures |Wire(files, source, k, offset)| + TotalSize(files[..k]) <= TotalSize(files)
    decreases |files| - k
  {
    if k == |files| {
      assert files[..k] == files;
    } else {
      RemainderSize(source, files[k], offset, digest);
      TotalMore(files, k);
      WireSize(files, source, k + 1, 0, digest);
    }
  }

  // One turn of the loop over the files.
  method ReceiveNext(disk: Workspace, writer: (StoredOffer, FolderManifest), files: seq<FolderEntry>, index: nat,
                     start: nat,
                     rest: seq<byte>, readSize: nat -> nat, torn: nat, ghost source: FsTree)
    returns (r: Result<seq<byte>, CoreError>)
    requires disk.own.staging.Some? && index < |files| && files[index].kind.File?
    modifies disk`dest, disk`budget, disk`others, disk`history, disk`own
    ensures r == Failure(Stopped) ==> disk.budget == 0
    ensures old(disk.budget) + (if r.Success? then |r.value| else 0) <= disk.budget + |rest| + FILE_CALLS
    ensures Undisturbed(disk) && Restaged(old(disk.own), disk.own, {writer})
    ensures HonestRest(TreeOf(old(disk.own)), source, files, index, start, rest, disk.digest) ==>
      && Partial(TreeOf(disk.own), source)
      && (r.Success? ==>
        && HonestRest(TreeOf(disk.own), source, files, index + 1, 0, r.value, disk.digest)
        && (rest == Wire(files, source, index, start) <==> r.value == Wire(files, source, index + 1, 0)))
      && (r.Failure? && rest == Wire(files, source, index, start) ==> r == Failure(Stopped))
  {
    ghost var t := TreeOf(disk.own);
    ghost var honest := HonestRest(t, source, files, index, start, rest, disk.digest);
    if honest {
      HonestNext(t, source, files, index, start, rest, disk.digest);
    }
    r := ReceiveFolderFile(disk, writer, files[index], start, rest, readSize, torn, source);
    if honest && r.Success? {
      HonestStep(t, TreeOf(disk.own), source, files, index, start, rest, r.value, disk.digest);
    }
  }

  // All files from the checkpoint on, off one stream: the rest of the loop from its `index`-th file.
  method ReceiveFolderFiles(disk: Workspace, writer: (StoredOffer, FolderManifest), files: seq<FolderEntry>, index: nat,
                            offset: nat, incoming: seq<byte>, readSize: nat -> nat, torn: nat, ghost source: FsTree)
    returns (r: Result<(), CoreError>)
    requires disk.own.staging.Some? && index <= |files| && AllFiles(files)
    modifies disk`dest, disk`budget, disk`others, disk`history, disk`own
    ensures r == Failure(Stopped) ==> disk.budget == 0
    ensures old(disk.budget) <= disk.budget + |incoming| + StreamCalls(|files| - index)
    ensures Undisturbed(disk) && Restaged(old(disk.own), disk.own, {writer})
    ensures HonestRest(TreeOf(old(disk.own)), source, files, index, offset, incoming, disk.digest) ==>
      && Partial(TreeOf(disk.own), source)
      && (r.Success? ==>
           FilesDone(TreeOf(disk.own), source, files, |files|) && incoming == Wire(files, source, index, offset))
      && (r.Failure? && incoming == Wire(files, source, index, offset) ==> r == Failure(Stopped))
    decreases |files| - index
  {
    if index == |files| {
      r := if incoming == [] then Success(()) else Failure(TooManyBytes);
    } else {
      var received := ReceiveNext(disk, writer, files, index, offset, incoming, readSize, torn, source);
      if received.Failure? {
        r := Failure(received.error);
      } else {
        r := ReceiveFolderFiles(disk, writer, files, index + 1, 0, received.value, readSize, torn, source);
      }
    }
  }
}

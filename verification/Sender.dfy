// The sending side: the file loop, and the folder stream with its test of the receiver's checkpoint.
module Sender {
  import opened Wrappers
  import opened Text
  import opened Manifest
  import opened FolderTree
  import opened FolderReceive
  import opened FolderTransfer
  import opened FileTransfer

  datatype SendError = InvalidOffset | SourceChanged | SourceGrew | SourceMismatch | InvalidCheckpoint

  // What a file still holds from `offset` on; seeking past the end leaves nothing to read.
  function From(file: seq<byte>, offset: nat): seq<byte> {
    if offset <= |file| then file[offset..] else []
  }

  // ---------- one file ----------

  lemma SentMore(file: seq<byte>, offset: nat, sent: nat, read: nat)
    requires offset <= sent && sent + read <= |file|
    ensures From(file, offset)[..sent - offset] + From(file, sent)[..read] == From(file, offset)[..sent + read - offset]
  {
    var rest := file[offset..];
    assert From(file, sent) == rest[sent - offset..];
    assert rest[..sent - offset] + rest[sent - offset..][..read] == rest[..sent - offset + read];
  }

  // The read loop: everything from `offset` up to the declared size, whatever the read sizes.
  method SendBytes(file: seq<byte>, size: nat, offset: nat, readSize: nat -> nat)
    returns (r: Result<(), SendError>, wire: seq<byte>, progress: seq<nat>)
    requires offset <= size
    ensures wire <= From(file, offset) && |wire| <= size - offset
    ensures r.Success? <==> size == offset || size <= |file|
    ensures r.Success? ==> |wire| == size - offset
    ensures r.Failure? ==> r.error == SourceChanged
    ensures |progress| >= 1 && progress[0] == offset && progress[|progress| - 1] == offset + |wire|
    ensures Increasing(progress)
  {
    var sent := offset;
    wire, progress := [], [sent];
    r := Success(());
    while sent < size && r.Success?
      invariant offset <= sent <= size && sent - offset <= |From(file, offset)|
                && wire == From(file, offset)[..sent - offset]
      invariant |progress| >= 1 && progress[0] == offset && progress[|progress| - 1] == sent
      invariant Increasing(progress) && forall i :: 0 <= i < |progress| ==> progress[i] <= sent
      invariant r.Failure? ==> r.error == SourceChanged && |file| <= sent < size
      decreases size - sent, r.Success?
    {
      var wanted := if size - sent < TRANSFER_BUFFER_SIZE then size - sent else TRANSFER_BUFFER_SIZE;
      var available := if |From(file, sent)| < wanted then |From(file, sent)| else wanted;
      if available == 0 {
        r := Failure(SourceChanged);
      } else {
        var read := 1 + readSize(sent) % available;
        SentMore(file, offset, sent, read);
        wire := wire + From(file, sent)[..read];
        sent := sent + read;
        progress := progress + [sent];
      }
    }
  }

  // `send_file`'s stream: it ends well exactly when the file still has the declared size, or when the
  // receiver had everything and the file merely did not grow.
  method SendFile(file: seq<byte>, size: nat, offset: nat, readSize: nat -> nat)
    returns (r: Result<(), SendError>, wire: seq<byte>)
    ensures r.Success? <==> offset <= size && |file| <= size && (offset < size ==> |file| == size)
    ensures wire <= From(file, offset)
    ensures r.Success? ==> wire == From(file, offset)
  {
    wire := [];
    if offset > size {
      r := Failure(InvalidOffset);
    } else {
      var progress;
      r, wire, progress := SendBytes(file, size, offset, readSize);
      if r.Success? && |From(file, size)| > 0 {
        r := Failure(SourceGrew);
      }
    }
  }

  // ---------- a folder ----------

  // The rest of the k-th file and the files after it.
  function StreamFrom(sources: seq<seq<byte>>, k: nat, offset: nat): seq<byte>
    decreases |sources| - k
  {
    if k >= |sources| then [] else From(sources[k], offset) + StreamFrom(sources, k + 1, 0)
  }

  ghost predicate SizesAgree(entries: seq<FolderEntry>, sources: seq<seq<byte>>, k: nat)
    requires |entries| == |sources|
  {
    forall j :: k <= j < |entries| ==> |sources[j]| == entries[j].size
  }

  // One file of the folder stream.
  method SendEntry(entry: FolderEntry, source: seq<byte>, offset: nat, readSize: nat -> nat)
    returns (r: Result<(), SendError>, wire: seq<byte>)
    requires offset <= entry.size
    ensures r.Success? <==> |source| == entry.size
    ensures wire <= From(source, offset)
    ensures r.Success? ==> wire == From(source, offset)
  {
    wire := [];
    if |source| != entry.size {
      r := Failure(SourceChanged);
    } else {
      var progress;
      r, wire, progress := SendBytes(source, entry.size, offset, readSize);
      if r.Success? && |From(source, entry.size)| > 0 {
        r := Failure(SourceGrew);
      }
    }
  }

  // `send_folder_stream`: it ends well exactly when the checkpoint is consistent and no file from it
  // on has changed its size; what it has written is always a beginning of the one stream.
  method SendFolder(entries: seq<FolderEntry>, sources: seq<seq<byte>>, at: Checkpoint, readSize: nat -> nat)
    returns (r: Result<(), SendError>, wire: seq<byte>)
    ensures r.Success? <==>
      |entries| == |sources| && SenderAccepts(entries, at) && SizesAgree(entries, sources, at.fileIndex)
    ensures wire <= StreamFrom(sources, at.fileIndex, at.offset)
    ensures r.Success? ==> wire == StreamFrom(sources, at.fileIndex, at.offset)
  {
    wire := [];
    if |entries| != |sources| {
      r := Failure(SourceMismatch);
    } else if !SenderAccepts(entries, at) {
      r := Failure(InvalidCheckpoint);
    } else {
      r := Success(());
      ghost var whole := StreamFrom(sources, at.fileIndex, at.offset);
      ghost var rest := whole;
      var index: nat, offset: nat := at.fileIndex, at.offset;
      while index < |entries| && r.Success?
        invariant at.fileIndex <= index <= |entries| && (index < |entries| ==> offset <= entries[index].size)
        invariant wire <= whole
        invariant r.Success? ==> rest == StreamFrom(sources, index, offset) && whole == wire + rest
        invariant r.Success? ==> forall j :: at.fileIndex <= j < index ==> |sources[j]| == entries[j].size
        invariant r.Failure? ==> !SizesAgree(entries, sources, at.fileIndex)
        decreases |entries| - index, r.Success?
      {
        var sent;
        r, sent := SendEntry(entries[index], sources[index], offset, readSize);
        rest := StreamFrom(sources, index + 1, 0);
        Onwards(whole, wire, From(sources[index], offset), rest, sent);
        wire := wire + sent;
        if r.Success? {
          index, offset := index + 1, 0;
        }
      }
      assert r.Success? ==> rest == [] && wire + rest == wire;
    }
  }

  lemma Onwards(whole: seq<byte>, sofar: seq<byte>, part: seq<byte>, rest: seq<byte>, sent: seq<byte>)
    requires whole == sofar + (part + rest) && sent <= part
    ensures sofar + sent <= whole
    ensures sent == part ==> whole == (sofar + sent) + rest
  {
    assert part == sent + part[|sent|..];
    assert whole == (sofar + sent) + (part[|sent|..] + rest);
  }

  // What an unchanged source sends is the wire the receiver cuts.
  lemma {:induction false} StreamIsWire(entries: seq<FolderEntry>, sources: seq<seq<byte>>, source: Tree, k: nat,
                                        offset: nat)
    requires |entries| == |sources|
    requires forall j :: 0 <= j < |entries| ==>
      entries[j].path in source && source[entries[j].path] == FileItem(sources[j])
    ensures StreamFrom(sources, k, offset) == Wire(entries, source, k, offset)
    decreases |entries| - k
  {
    if k < |entries| {
      StreamIsWire(entries, sources, source, k + 1, 0);
    }
  }
}

// The part of the disk a transfer handler works on while it holds its transfer's lock, and what can
// go wrong around it. Every file system call is one `Call`: before it takes effect anybody else may
// have changed destination names, and the process may stop instead of making it. An early return
// with an error leaves the disk exactly as a stop at that call would.
module Disk {
  import opened Wrappers
  import opened Text
  import opened Names
  import opened Manifest
  import opened FolderTree
  import opened Offers

  datatype CoreError =
    | Stopped
    | InvalidOffer | WrongKind | Reused | PartTooLarge | ShortPart | DigestMismatch | NotRegular
    | BadDestination | NoFreeName | RenameFailed
    | SenderDisconnected | TooManyBytes
    | ManifestMissing | ManifestMismatch | BadCheckpoint | FolderInvalid(cause: FolderError)

  datatype Node = RegularFile(data: seq<byte>) | Directory(tree: FsTree) | OtherNode

  // Partial data, with the offers (and manifests) its bytes were written under.
  datatype PartFile = PartFile(data: seq<byte>, writers: set<StoredOffer>)

  datatype Staging = Staging(tree: FsTree, writers: set<(StoredOffer, FolderManifest)>)

  // The sidecar files of one transfer; only its lock holder touches them.
  datatype Sidecars = Sidecars(
    part: Option<PartFile>, staging: Option<Staging>, metadata: Option<StoredOffer>,
    manifest: Option<FolderManifest>, commit: Option<CommitRecord>, done: Option<DoneRecord>)

  ghost predicate RecordsOk(own: Sidecars) {
    && (own.done.Some? ==>
      && own.done.value.receipt == ReceiptOf(own.done.value.offer)
      && ValidDestinationName(own.done.value.destination)
      && (own.done.value.offer.kind.FolderKind? <==> own.done.value.manifest.Some?))
    && (own.commit.Some? ==>
      && ValidDestinationName(own.commit.value.destination)
      && (own.commit.value.offer.kind.FolderKind? <==> own.commit.value.manifest.Some?))
    && (own.done.Some? && own.commit.Some? ==>
      own.commit.value == CommitRecord(own.done.value.offer, own.done.value.destination, own.done.value.manifest))
  }

  // Partial data that the stored metadata would let a transfer resume from was written for it.
  ghost predicate Bound(own: Sidecars) {
    && (own.metadata.Some? && own.metadata.value.kind.FileKind? && own.part.Some? ==>
      own.part.value.writers <= {own.metadata.value})
    && (own.metadata.Some? && own.metadata.value.kind.FolderKind? && own.manifest.Some? && own.staging.Some? ==>
      own.staging.value.writers <= {(own.metadata.value, own.manifest.value)})
  }

  // What every call leaves true of the sidecars, wherever the process stops.
  ghost predicate SidecarsOk(own: Sidecars) {
    RecordsOk(own) && Bound(own)
  }

  function TreeOf(own: Sidecars): FsTree
    requires own.staging.Some?
  {
    own.staging.value.tree
  }

  function WithTree(own: Sidecars, t: FsTree): Sidecars
    requires own.staging.Some?
  {
    own.(staging := Some(own.staging.value.(tree := t)))
  }

  datatype Slot = Part | FolderPart | MetadataJson | ManifestJson | CommitJson | DoneJson

  // The sidecars that were pruned, and what was left of a staging directory whose removal failed.
  datatype Pruning = Pruning(slots: set<Slot>, remains: Option<set<string>>)

  type Destinations = map<string, Node>

  predicate SameAt(a: Destinations, b: Destinations, name: string) {
    (name in a <==> name in b) && (name in a ==> a[name] == b[name])
  }

  ghost predicate SameKept(a: Destinations, b: Destinations, kept: set<string>) {
    forall name :: name in kept ==> SameAt(a, b, name)
  }

  lemma HistoryOn(a: seq<Destinations>, b: seq<Destinations>, c: seq<Destinations>)
    requires a <= b <= c
    ensures a <= c
  {
  }

  // What we renamed to `name`, if anything; names nobody else touches did not change otherwise.
  ghost predicate MovedTo(before: Destinations, after: Destinations, kept: set<string>, name: string,
                          moved: Option<Node>) {
    match moved
    case None => SameKept(before, after, kept)
    case Some(node) =>
      && SameKept(before, after, kept - {name})
      && (name in kept ==> name !in before && name in after && after[name] == node)
  }

  // The destinations this transfer has renamed its data to, after that.
  function CreatedBy(created: seq<string>, name: string, moved: Option<Node>): seq<string> {
    if moved.Some? then created + [name] else created
  }

  lemma MovedOn(a: Destinations, b: Destinations, c: Destinations, kept: set<string>, name: string, moved: Option<Node>)
    requires SameKept(a, b, kept) && MovedTo(b, c, kept, name, moved)
    ensures MovedTo(a, c, kept, name, moved)
  {
    assert name in kept ==> SameAt(a, b, name);
    forall other | other in kept && (moved.Some? ==> other != name) ensures SameAt(a, c, other) {
      assert SameAt(a, b, other) && (moved.Some? ==> other in kept - {name}) && SameAt(b, c, other);
    }
  }

  lemma MovedStays(a: Destinations, b: Destinations, c: Destinations, kept: set<string>, name: string,
                   moved: Option<Node>)
    requires MovedTo(a, b, kept, name, moved) && SameKept(b, c, kept)
    ensures MovedTo(a, c, kept, name, moved)
  {
    assert name in kept ==> SameAt(b, c, name);
    forall other | other in kept && (moved.Some? ==> other != name) ensures SameAt(a, c, other) {
      assert SameAt(b, c, other) && (moved.Some? ==> other in kept - {name}) && SameAt(a, b, other);
    }
  }

  // A regular file of the right size and digest.
  predicate FileAt(dest: Destinations, name: string, size: nat, blake3: string, digest: Digest) {
    name in dest && dest[name].RegularFile? && |dest[name].data| == size && digest(dest[name].data) == blake3
  }

  // The destination was a regular file of that size at some moment since `from`, and had that
  // digest at the same or a later one.
  ghost predicate FileChecked(history: seq<Destinations>, from: nat, name: string, size: nat, blake3: string,
                              digest: Digest) {
    exists i, j :: from <= i <= j < |history|
      && name in history[i] && history[i][name].RegularFile? && |history[i][name].data| == size
      && name in history[j] && history[j][name].RegularFile? && digest(history[j][name].data) == blake3
  }

  predicate ItemAt(dest: Destinations, name: string, path: string) {
    name in dest && dest[name].Directory? && path in dest[name].tree
  }

  // Of the listed kind, and a file of the listed size.
  predicate IsAsListed(item: Item, e: FolderEntry) {
    if e.kind.Directory? then item.DirItem? else item.FileItem? && |item.data| == e.size
  }

  predicate AsListed(dest: Destinations, name: string, e: FolderEntry) {
    ItemAt(dest, name, e.path) && IsAsListed(dest[name].tree[e.path], e)
  }

  predicate HashesAsListed(dest: Destinations, name: string, e: FolderEntry, digest: Digest) {
    e.kind.File? ==>
      && ItemAt(dest, name, e.path) && dest[name].tree[e.path].FileItem?
      && digest(dest[name].tree[e.path].data) == e.blake3
  }

  // The item was as listed at some moment since `from`; a file had the listed digest at the same
  // moment or a later one.
  ghost predicate EntryChecked(history: seq<Destinations>, from: nat, name: string, e: FolderEntry, digest: Digest) {
    exists i, j :: from <= i <= j < |history|
      && AsListed(history[i], name, e) && HashesAsListed(history[j], name, e, digest)
  }

  // Since `from`, the destination was a directory, and each listed item was seen in it as listed.
  ghost predicate FolderChecked(history: seq<Destinations>, from: nat, name: string, m: FolderManifest,
                                digest: Digest) {
    && (exists i :: from <= i < |history| && name in history[i] && history[i][name].Directory?)
    && forall k :: 0 <= k < |m.entries| ==> EntryChecked(history, from, name, m.entries[k], digest)
  }

  function Meddle(dest: Destinations, change: map<string, Option<Node>>, kept: set<string>): Destinations {
    map name | name in dest.Keys + change.Keys
               && (if name in kept || name !in change then name in dest else change[name].Some?)
      :: if name in kept || name !in change then dest[name] else change[name].value
  }

  class Workspace {
    const digest: Digest
    const canon: Canonical
    const manifestDigest: FolderManifest -> string
    const authentic: TransferOffer -> bool
    // Names nobody else creates, changes or removes.
    const kept: set<string>

    var own: Sidecars
    var dest: Destinations
    // How many more calls the process makes before it stops.
    var budget: nat
    // What everybody else does before each of the next calls.
    var others: seq<map<string, Option<Node>>>

    // The destinations at each call so far.
    ghost var history: seq<Destinations>
    // Destinations this transfer has renamed its data to.
    ghost var created: seq<string>
    method Call() returns (r: Result<(), CoreError>)
      modifies this`dest, this`budget, this`others, this`history
      ensures history == old(history) + [dest]
      ensures SameKept(old(dest), dest, kept)
      ensures r == if old(budget) > 0 then Success(()) else Failure(Stopped)
      ensures budget == if old(budget) > 0 then old(budget) - 1 else 0
    {
      if others != [] {
        dest := Meddle(dest, others[0], kept);
        others := others[1..];
      }
      history := history + [dest];
      if budget == 0 {
        return Failure(Stopped);
      }
      budget := budget - 1;
      return Success(());
    }

    // Nothing received yet.
    constructor (digest: Digest, canon: Canonical, manifestDigest: FolderManifest -> string,
                 authentic: TransferOffer -> bool,
                 kept: set<string>, dest: Destinations)
      ensures this.digest == digest && this.canon == canon && this.manifestDigest == manifestDigest
      ensures this.authentic == authentic && this.kept == kept && this.dest == dest
      ensures own == Sidecars(None, None, None, None, None, None) && SidecarsOk(own)
      ensures budget == 0 && others == [] && history == [] && created == []
    {
      this.digest, this.canon, this.manifestDigest, this.authentic := digest, canon, manifestDigest, authentic;
      this.kept, this.dest, this.own := kept, dest, Sidecars(None, None, None, None, None, None);
      budget, others, history, created := 0, [], [], [];
    }

    // One call after another, each leaving the sidecars as the next element says: as many of them
    // as the process still makes.
    method Update(states: seq<Sidecars>) returns (r: Result<(), CoreError>)
      modifies this`dest, this`budget, this`others, this`history, this`own
      ensures Undisturbed(this)
      ensures own == old(own) || own in states
      ensures r.Success? ==> own == if states == [] then old(own) else states[|states| - 1]
      ensures r.Failure? ==> r.error == Stopped && budget == 0
      ensures r.Success? <==> |states| <= old(budget)
      ensures var made := if |states| <= old(budget) then |states| else old(budget);
        budget == old(budget) - made && own == if made == 0 then old(own) else states[made - 1]
    {
      for i := 0 to |states|
        invariant Undisturbed(this)
        invariant i + budget == old(budget)
        invariant own == if i == 0 then old(own) else states[i - 1]
      {
        var _ :- Call();
        own := states[i];
      }
      return Success(());
    }

    // What abandoned-state pruning can do between sessions: remove any of the sidecars, a staging
    // directory perhaps only in part.
    method Prune(pruning: Pruning)
      modifies this`own
      ensures own == Pruned(old(own), pruning)
      ensures old(SidecarsOk(own)) ==> SidecarsOk(own)
    {
      own := Pruned(own, pruning);
    }
  }

  function Pruned(own: Sidecars, pruning: Pruning): Sidecars {
    var Pruning(slots, remains) := pruning;
    Sidecars(
      if Part in slots then None else own.part,
      if FolderPart !in slots || own.staging.None? then own.staging
      else if remains.None? then None
      else Some(own.staging.value.(tree := Within(TreeOf(own), remains.value))),
      if MetadataJson in slots then None else own.metadata,
      if ManifestJson in slots then None else own.manifest,
      if CommitJson in slots then None else own.commit,
      if DoneJson in slots then None else own.done)
  }

  // From one state to a later one in which we renamed nothing: names nobody else touches did not change.
  twostate predicate Undisturbed(disk: Workspace)
    reads disk
  {
    old(disk.history) <= disk.history && SameKept(old(disk.dest), disk.dest, disk.kept)
  }
}

// `validate_folder_contents`: a directory on disk against a manifest, one call at a time. Others may
// change a destination between any two of the calls; nobody changes the staging directory.
module FolderCheck {
  import opened Wrappers
  import opened Text
  import opened Names
  import opened Manifest
  import opened FolderTree
  import opened Disk

  datatype Place = Staged | At(name: string)

  function NodeOf(own: Sidecars, dest: Destinations, place: Place): Option<Node> {
    match place
    case Staged => if own.staging.Some? then Some(Node.Directory(own.staging.value.tree)) else None
    case At(name) => if name in dest then Some(dest[name]) else None
  }

  predicate IsFolder(node: Option<Node>) {
    node.Some? && node.value.Directory?
  }

  function TreeIn(node: Option<Node>): FsTree {
    if IsFolder(node) then node.value.tree else map[]
  }

  function ItemIn(node: Option<Node>, path: string): Option<Item> {
    if path in TreeIn(node) then Some(TreeIn(node)[path]) else None
  }

  // Nobody changes what is looked at.
  ghost predicate Steady(disk: Workspace, place: Place)
    reads disk
  {
    place.At? ==> place.name in disk.kept
  }

  ghost predicate Evident(place: Place, history: seq<Destinations>, from: nat, e: FolderEntry, digest: Digest) {
    place.At? ==> EntryChecked(history, from, place.name, e, digest)
  }

  lemma EntryCheckedLater(h: seq<Destinations>, later: seq<Destinations>, from: nat, name: string, e: FolderEntry,
                          digest: Digest)
    requires h <= later && EntryChecked(h, from, name, e, digest)
    ensures EntryChecked(later, from, name, e, digest)
  {
    var i, j :| from <= i <= j < |h| && AsListed(h[i], name, e) && HashesAsListed(h[j], name, e, digest);
    assert later[i] == h[i] && later[j] == h[j];
  }

  // Every item met so far was listed, and seen as listed.
  ghost predicate AllEvident(place: Place, history: seq<Destinations>, from: nat, expected: map<string, FolderEntry>,
                             seen: set<string>, digest: Digest)
  {
    forall p :: p in seen ==> p in expected && Evident(place, history, from, expected[p], digest)
  }

  lemma AllEvidentLater(place: Place, h: seq<Destinations>, later: seq<Destinations>, from: nat,
                        expected: map<string, FolderEntry>, seen: set<string>, digest: Digest)
    requires h <= later && AllEvident(place, h, from, expected, seen, digest)
    ensures AllEvident(place, later, from, expected, seen, digest)
  {
    forall p | p in seen && place.At? ensures EntryChecked(later, from, place.name, expected[p], digest) {
      assert Evident(place, h, from, expected[p], digest);
      EntryCheckedLater(h, later, from, place.name, expected[p], digest);
    }
  }

  lemma ItemHashed(place: Place, h: seq<Destinations>, later: seq<Destinations>, from: nat, i: nat, e: FolderEntry,
                   digest: Digest)
    requires from <= i < |h| && |later| == |h| + 1 && h <= later
    requires place.At? ==> AsListed(h[i], place.name, e) && HashesAsListed(later[|h|], place.name, e, digest)
    ensures Evident(place, later, from, e, digest)
  {
    assert later[i] == h[i];
  }

  // The hash of an item that was a file of the listed size.
  method HashItem(disk: Workspace, place: Place, e: FolderEntry) returns (r: Result<(), CoreError>)
    modifies disk`dest, disk`budget, disk`others, disk`history
    ensures r == Failure(Stopped) ==> disk.budget == 0
    ensures old(disk.budget) <= disk.budget + 1
    ensures Undisturbed(disk) && disk.history == old(disk.history) + [disk.dest]
    ensures r.Success? && place.At? ==> HashesAsListed(disk.dest, place.name, e, disk.digest)
    ensures old(Steady(disk, place)) ==>
      var item := ItemIn(old(NodeOf(disk.own, disk.dest, place)), e.path);
      || r == Failure(Stopped)
      || (r.Success? <==> item.Some? && item.value.FileItem? && disk.digest(item.value.data) == e.blake3)
  {
    r := disk.Call();
    var item := ItemIn(NodeOf(disk.own, disk.dest, place), e.path);
    if r.Failure? {
    } else if item.None? || !item.value.FileItem? {
      r := Failure(NotRegular);
    } else if disk.digest(item.value.data) != e.blake3 {
      r := Failure(FolderInvalid(Mismatch));
    }
  }

  // symlink_metadata of one item, and the hash of a file of the listed size
  method LookAt(disk: Workspace, place: Place, e: FolderEntry, ghost from: nat) returns (r: Result<(), CoreError>)
    requires from <= |disk.history|
    modifies disk`dest, disk`budget, disk`others, disk`history
    ensures r == Failure(Stopped) ==> disk.budget == 0
    ensures old(disk.budget) <= disk.budget + 2
    ensures Undisturbed(disk)
    ensures r.Success? ==> Evident(place, disk.history, from, e, disk.digest)
    ensures old(Steady(disk, place)) ==>
      var item := ItemIn(old(NodeOf(disk.own, disk.dest, place)), e.path);
      r == Failure(Stopped) || (r.Success? <==> item.Some? && ItemMatches(item.value, e, disk.digest))
  {
    ghost var before := disk.history;
    r := Inspect(disk, place, e);
    if r.Success? && e.kind.File? {
      ghost var met := disk.history;
      r := HashItem(disk, place, e);
      if r.Success? {
        ItemHashed(place, met, disk.history, from, |before|, e, disk.digest);
      }
    } else if r.Success? {
      assert disk.history[|before|] == disk.dest;
    }
  }

  // symlink_metadata of one item
  method Inspect(disk: Workspace, place: Place, e: FolderEntry) returns (r: Result<(), CoreError>)
    modifies disk`dest, disk`budget, disk`others, disk`history
    ensures r == Failure(Stopped) ==> disk.budget == 0
    ensures old(disk.budget) <= disk.budget + 1
    ensures Undisturbed(disk) && disk.history == old(disk.history) + [disk.dest]
    ensures r.Success? && place.At? ==> AsListed(disk.dest, place.name, e)
    ensures old(Steady(disk, place)) ==>
      var item := ItemIn(old(NodeOf(disk.own, disk.dest, place)), e.path);
      r == Failure(Stopped) || (r.Success? <==> item.Some? && IsAsListed(item.value, e))
  {
    r := disk.Call();
    var item := ItemIn(NodeOf(disk.own, disk.dest, place), e.path);
    if r.Failure? {
    } else if item.None? {
      r := Failure(NotRegular);
    } else if item.value.LinkItem? {
      r := Failure(FolderInvalid(SymbolicLink));
    } else if !IsAsListed(item.value, e) {
      r := Failure(FolderInvalid(Mismatch));
    }
  }

  // A lookup table by path, of paths that can name an item.
  ghost predicate Indexed(expected: map<string, FolderEntry>) {
    && (forall p :: p in expected ==> expected[p].path == p)
    && (forall p {:trigger ValidRelativePath(p)} :: p in expected ==> ValidRelativePath(p))
  }

  type Lookup = expected: map<string, FolderEntry> | Indexed(expected) witness map[]

  lemma IndexIndexed(m: FolderManifest, canon: Canonical)
    requires WellFormed(m, canon)
    ensures Indexed(Index(m.entries))
  {
    forall p | p in Index(m.entries) ensures ValidRelativePath(p) {
      var i :| 0 <= i < |m.entries| && m.entries[i].path == p;
      assert EntryOk(m.entries[i]);
    }
  }

  // One name of a directory's listing.
  method CheckItem(disk: Workspace, place: Place, relative: string, expected: Lookup, seen: set<string>,
                   ghost from: nat)
    returns (r: Result<(), CoreError>)
    requires from <= |disk.history|
    modifies disk`dest, disk`budget, disk`others, disk`history
    ensures r == Failure(Stopped) ==> disk.budget == 0
    ensures old(disk.budget) <= disk.budget + 2
    ensures Undisturbed(disk)
    ensures r.Success? ==>
      relative in expected && relative !in seen && Evident(place, disk.history, from, expected[relative], disk.digest)
    ensures old(Steady(disk, place)) && relative in TreeIn(old(NodeOf(disk.own, disk.dest, place))) ==>
      || r == Failure(Stopped)
      || (r.Success? <==>
           Fits(TreeIn(old(NodeOf(disk.own, disk.dest, place))), expected, disk.digest, relative) && relative !in seen)
  {
    if !ValidRelativePath(relative) {
      r := Failure(FolderInvalid(InvalidPath));
    } else if relative !in expected {
      r := Failure(FolderInvalid(UnexpectedEntry));
    } else if relative in seen {
      r := Failure(FolderInvalid(DuplicateEntry));
    } else {
      r := LookAt(disk, place, expected[relative], from);
    }
  }

  datatype Progress = Progress(seen: set<string>, stack: seq<string>)

  // What the calls made so far are counted against: no more than three for an item.
  function Steps(at: Progress): int {
    3 * |at.seen| - |at.stack|
  }

  // Whatever others do, only listed items are accepted, each once, and each is seen as listed.
  ghost predicate Sound(place: Place, history: seq<Destinations>, from: nat, expected: Lookup, at: Progress,
                        digest: Digest) {
    at.seen <= expected.Keys && AllEvident(place, history, from, expected, at.seen, digest)
  }

  // If nobody changes it, the traversal is on its way through the whole tree, and everything fits so far.
  ghost predicate OnTheWay(t: Tree, expected: Lookup, at: Progress, expanded: set<string>, pending: set<string>,
                           digest: Digest) {
    && Walk(t, at.seen, at.stack, expanded, pending)
    && forall p :: p in at.seen ==> Fits(t, expected, digest, p)
  }

  // Every accepted item brings the traversal nearer to its end.
  ghost predicate Further(before: Progress, after: Progress) {
    before.seen <= after.seen && (before.seen == after.seen ==> before == after)
  }

  ghost predicate Misfit(t: Tree, expected: Lookup, digest: Digest) {
    exists p :: p in t && !Fits(t, expected, digest, p)
  }

  // Nobody changes the tree `t` that is looked at.
  ghost predicate Still(disk: Workspace, place: Place, t: Tree)
    reads disk
  {
    Steady(disk, place) && NodeOf(disk.own, disk.dest, place).Some? && IsFolder(NodeOf(disk.own, disk.dest, place))
    && TreeIn(NodeOf(disk.own, disk.dest, place)) == t
  }

  lemma Joined(t: FsTree, directory: string)
    ensures (set p | p in Children(t, directory) :: Join(directory, BaseName(p))) == Children(t, directory)
  {
    forall p | p in Children(t, directory) ensures Join(directory, BaseName(p)) == p {
      JoinParts(p);
    }
  }

  // read_dir: what is in a directory, by relative path, in no particular order
  method ListDirectory(disk: Workspace, place: Place, directory: string, ghost t: Tree)
    returns (r: Result<set<string>, CoreError>)
    modifies disk`dest, disk`budget, disk`others, disk`history
    ensures r == Failure(Stopped) ==> disk.budget == 0
    ensures old(disk.budget) <= disk.budget + 1
    ensures Undisturbed(disk)
    ensures old(Still(disk, place, t)) && (directory == "" || (directory in t && t[directory].DirItem?)) ==>
      if r.Success? then r.value == Children(t, directory) else r == Failure(Stopped)
  {
    var read := disk.Call();
    var node := NodeOf(disk.own, disk.dest, place);
    if read.Failure? {
      r := Failure(read.error);
    } else if !(if directory == "" then IsFolder(node) else ItemIn(node, directory) == Some(DirItem)) {
      r := Failure(FolderInvalid(NotADirectory));
    } else {
      r := Success(set p | p in Children(TreeIn(node), directory) :: Join(directory, BaseName(p)));
      Joined(TreeIn(node), directory);
    }
  }

  // Where the traversal of `t` is, or why it ended.
  ghost predicate Going(r: Result<(), CoreError>, t: Tree, expected: Lookup, at: Progress,
                        expanded: set<string>, pending: set<string>, digest: Digest)
  {
    match r
    case Success(_) => OnTheWay(t, expected, at, expanded, pending, digest)
    case Failure(error) => error == Stopped || Misfit(t, expected, digest)
  }

  // The items of one directory, in whatever order they come. `steady` says that nobody changes it.
  method CheckDirectory(disk: Workspace, place: Place, directory: string, expected: Lookup, start: Progress,
                        ghost from: nat, ghost steady: bool, ghost t: FsTree, ghost expanded: set<string>)
    returns (r: Result<(), CoreError>, at: Progress)
    requires from <= |disk.history|
    requires Sound(place, disk.history, from, expected, start, disk.digest)
    requires steady ==>
      && Still(disk, place, t) && (directory == "" || (directory in t && t[directory].DirItem?))
      && OnTheWay(t, expected, start, expanded, Children(t, directory), disk.digest)
    modifies disk`dest, disk`budget, disk`others, disk`history
    ensures r == Failure(Stopped) ==> disk.budget == 0
    ensures old(disk.budget) + Steps(start) <= disk.budget + Steps(at) + 1 + (if r.Success? then 0 else 2)
    ensures Undisturbed(disk) && (steady ==> Still(disk, place, t))
    ensures Sound(place, disk.history, from, expected, at, disk.digest) && Further(start, at)
    ensures steady ==> Going(r, t, expected, at, expanded, {}, disk.digest)
  {
    ghost var history := disk.history;
    var listed := ListDirectory(disk, place, directory, t);
    AllEvidentLater(place, history, disk.history, from, expected, start.seen, disk.digest);
    if listed.Failure? {
      r, at := Failure(listed.error), start;
    } else {
      r, at := CheckListed(disk, place, listed.value, expected, start, from, steady, t, expanded);
    }
  }

  method CheckListed(disk: Workspace, place: Place, listed: set<string>, expected: Lookup, start: Progress,
                     ghost from: nat, ghost steady: bool, ghost t: FsTree, ghost expanded: set<string>)
    returns (r: Result<(), CoreError>, at: Progress)
    requires from <= |disk.history|
    requires Sound(place, disk.history, from, expected, start, disk.digest)
    requires steady ==> Still(disk, place, t) && OnTheWay(t, expected, start, expanded, listed, disk.digest)
    modifies disk`dest, disk`budget, disk`others, disk`history
    ensures r == Failure(Stopped) ==> disk.budget == 0
    ensures old(disk.budget) + Steps(start) <= disk.budget + Steps(at) + (if r.Success? then 0 else 2)
    ensures Undisturbed(disk) && (steady ==> Still(disk, place, t))
    ensures Sound(place, disk.history, from, expected, at, disk.digest) && Further(start, at)
    ensures steady ==> Going(r, t, expected, at, expanded, {}, disk.digest)
  {
    r, at := Success(()), start;
    var pending := listed;
    while pending != {} && r.Success?
      invariant Undisturbed(disk) && (r == Failure(Stopped) ==> disk.budget == 0)
      invariant pending <= listed
      invariant old(disk.budget) + Steps(start) <= disk.budget + Steps(at) + (if r.Success? then 0 else 2)
      invariant Sound(place, disk.history, from, expected, at, disk.digest) && Further(start, at)
      invariant steady ==> Still(disk, place, t) && Going(r, t, expected, at, expanded, pending, disk.digest)
      decreases pending, r.Success?
    {
      var item :| item in pending;
      r, at := CheckNext(disk, place, item, expected, at, from, steady, t, expanded, pending);
      pending := pending - {item};
    }
  }

  method CheckNext(disk: Workspace, place: Place, relative: string, expected: Lookup, before: Progress,
                   ghost from: nat, ghost steady: bool, ghost t: FsTree, ghost expanded: set<string>,
                   ghost pending: set<string>)
    returns (r: Result<(), CoreError>, at: Progress)
    requires from <= |disk.history|
    requires Sound(place, disk.history, from, expected, before, disk.digest)
    requires steady ==>
      Still(disk, place, t) && relative in pending && OnTheWay(t, expected, before, expanded, pending, disk.digest)
    modifies disk`dest, disk`budget, disk`others, disk`history
    ensures r == Failure(Stopped) ==> disk.budget == 0
    ensures old(disk.budget) + Steps(before) <= disk.budget + Steps(at) + (if r.Success? then 0 else 2)
    ensures Undisturbed(disk) && (steady ==> Still(disk, place, t))
    ensures Sound(place, disk.history, from, expected, at, disk.digest) && Further(before, at)
    ensures steady ==> Going(r, t, expected, at, expanded, pending - {relative}, disk.digest)
  {
    ghost var history := disk.history;
    GoesOn(steady, t, expected, before, expanded, pending, relative, disk.digest);
    r := CheckItem(disk, place, relative, expected, before.seen, from);
    AllEvidentLater(place, history, disk.history, from, expected, before.seen, disk.digest);
    at := if r.Success? then Met(before, expected, relative) else before;
  }

  function Met(before: Progress, expected: Lookup, relative: string): Progress {
    Progress(before.seen + {relative},
             if relative in expected && expected[relative].kind.Directory? then before.stack + [relative]
             else before.stack)
  }

  lemma GoesOn(steady: bool, t: FsTree, expected: Lookup, before: Progress, expanded: set<string>,
               pending: set<string>, relative: string, digest: Digest)
    requires steady ==> relative in pending && OnTheWay(t, expected, before, expanded, pending, digest)
    ensures steady ==>
      && relative in t && relative !in before.seen
      && (Fits(t, expected, digest, relative) ==>
        OnTheWay(t, expected, Met(before, expected, relative), expanded, pending - {relative}, digest))
  {
    if steady {
      WalkVisit(t, before.seen, before.stack, expanded, pending, relative);
    }
  }

  method Traverse(disk: Workspace, place: Place, expected: Lookup, ghost from: nat, ghost steady: bool, ghost t: FsTree)
    returns (r: Result<(), CoreError>)
    requires from <= |disk.history|
    requires steady ==> Still(disk, place, t)
    modifies disk`dest, disk`budget, disk`others, disk`history
    ensures r == Failure(Stopped) ==> disk.budget == 0
    ensures old(disk.budget) <= disk.budget + 3 * |expected| + 3
    ensures Undisturbed(disk)
    ensures r.Success? ==> AllEvident(place, disk.history, from, expected, expected.Keys, disk.digest)
    ensures steady ==> r == Failure(Stopped) || (r.Success? <==> AllFit(t, expected, disk.digest))
  {
    var at;
    ghost var expanded;
    r, at, expanded := EmptyStack(disk, place, expected, from, steady, t);
    SubsetSize(at.seen, expected.Keys);
    if r.Success? {
      if steady {
        AllMet(t, expected, at, expanded, disk.digest);
      }
      if |at.seen| != |expected| {
        r := Failure(FolderInvalid(MissingEntry));
      } else {
        SubsetOfEqualSize(at.seen, expected.Keys);
      }
    }
  }

  method EmptyStack(disk: Workspace, place: Place, expected: Lookup,
                    ghost from: nat, ghost steady: bool, ghost t: FsTree)
    returns (r: Result<(), CoreError>, at: Progress, ghost expanded: set<string>)
    requires from <= |disk.history|
    requires steady ==> Still(disk, place, t)
    modifies disk`dest, disk`budget, disk`others, disk`history
    ensures r == Failure(Stopped) ==> disk.budget == 0
    ensures old(disk.budget) <= disk.budget + Steps(at) + 1 + (if r.Success? then 0 else 2)
    ensures Undisturbed(disk)
    ensures Sound(place, disk.history, from, expected, at, disk.digest)
    ensures r.Success? ==> at.stack == []
    ensures steady ==> Going(r, t, expected, at, expanded, {}, disk.digest)
  {
    r, at, expanded := Success(()), Progress({}, [""]), {};
    StartWalk(t, expected, disk.digest);
    while at.stack != [] && r.Success?
      invariant Undisturbed(disk) && (r == Failure(Stopped) ==> disk.budget == 0)
      invariant old(disk.budget) <= disk.budget + Steps(at) + 1 + (if r.Success? then 0 else 2)
      invariant Sound(place, disk.history, from, expected, at, disk.digest)
      invariant steady ==> Still(disk, place, t) && Going(r, t, expected, at, expanded, {}, disk.digest)
      decreases expected.Keys - at.seen, |at.stack|, r.Success?
    {
      r, at, expanded := OpenNext(disk, place, expected, at, from, steady, t, expanded);
    }
  }

  lemma StartWalk(t: Tree, expected: Lookup, digest: Digest)
    ensures OnTheWay(t, expected, Progress({}, [""]), {}, {}, digest)
  {
  }

  // The directory on top of the stack.
  method OpenNext(disk: Workspace, place: Place, expected: Lookup, start: Progress,
                  ghost from: nat, ghost steady: bool, ghost t: FsTree, ghost before: set<string>)
    returns (r: Result<(), CoreError>, at: Progress, ghost expanded: set<string>)
    requires from <= |disk.history| && start.stack != []
    requires Sound(place, disk.history, from, expected, start, disk.digest)
    requires steady ==> Still(disk, place, t) && OnTheWay(t, expected, start, before, {}, disk.digest)
    modifies disk`dest, disk`budget, disk`others, disk`history
    ensures r == Failure(Stopped) ==> disk.budget == 0
    ensures old(disk.budget) + Steps(start) <= disk.budget + Steps(at) + (if r.Success? then 0 else 2)
    ensures Undisturbed(disk) && (steady ==> Still(disk, place, t))
    ensures Sound(place, disk.history, from, expected, at, disk.digest)
    ensures start.seen <= at.seen && (start.seen == at.seen ==> |at.stack| < |start.stack|)
    ensures steady ==> Going(r, t, expected, at, expanded, {}, disk.digest)
  {
    var directory := start.stack[|start.stack| - 1];
    if steady {
      WalkPop(t, start.seen, start.stack, before);
    }
    expanded := before + {directory};
    r, at := CheckDirectory(disk, place, directory, expected, Progress(start.seen, start.stack[..|start.stack| - 1]),
                            from, steady, t, expanded);
  }

  lemma AllMet(t: FsTree, expected: Lookup, at: Progress, expanded: set<string>, digest: Digest)
    requires at.stack == [] && OnTheWay(t, expected, at, expanded, {}, digest) && at.seen <= expected.Keys
    ensures |at.seen| == |expected| <==> AllFit(t, expected, digest)
  {
    assert Walk(t, at.seen, [], expanded, {});
    WalkDone(t, at.seen, expanded);
    if |at.seen| == |expected| {
      SubsetOfEqualSize(at.seen, expected.Keys);
    }
  }

  // Accepts nothing but a well-formed manifest whose every item was seen as listed; and, where
  // nobody changes anything meanwhile, exactly a directory that matches it.
  method ValidateContents(disk: Workspace, place: Place, m: FolderManifest) returns (r: Result<(), CoreError>)
    modifies disk`dest, disk`budget, disk`others, disk`history
    ensures r == Failure(Stopped) ==> disk.budget == 0
    ensures old(disk.budget) <= disk.budget + 3 * |m.entries| + 4
    ensures Undisturbed(disk)
    ensures r.Success? && place.At? ==> FolderChecked(disk.history, |old(disk.history)|, place.name, m, disk.digest)
    ensures old(Steady(disk, place)) ==>
      var node := old(NodeOf(disk.own, disk.dest, place));
      || r == Failure(Stopped)
      || (r.Success? <==> IsFolder(node) && WellFormed(m, disk.canon) && Matches(TreeIn(node), m, disk.digest))
  {
    var total := Validate(m, disk.canon);
    if total.Failure? {
      r := Failure(FolderInvalid(BadManifest(total.error)));
    } else {
      r := ValidateListed(disk, place, m);
    }
  }

  method ValidateListed(disk: Workspace, place: Place, m: FolderManifest) returns (r: Result<(), CoreError>)
    requires WellFormed(m, disk.canon)
    modifies disk`dest, disk`budget, disk`others, disk`history
    ensures r == Failure(Stopped) ==> disk.budget == 0
    ensures old(disk.budget) <= disk.budget + 3 * |m.entries| + 4
    ensures Undisturbed(disk)
    ensures r.Success? && place.At? ==> FolderChecked(disk.history, |old(disk.history)|, place.name, m, disk.digest)
    ensures old(Steady(disk, place)) ==>
      var node := old(NodeOf(disk.own, disk.dest, place));
      r == Failure(Stopped) || (r.Success? <==> IsFolder(node) && Matches(TreeIn(node), m, disk.digest))
  {
    ghost var from, node, steady := |disk.history|, NodeOf(disk.own, disk.dest, place), Steady(disk, place);
    r := disk.Call(); // symlink_metadata of the root
    var folder := IsFolder(NodeOf(disk.own, disk.dest, place));
    if r.Success? && !folder {
      r := Failure(FolderInvalid(NotADirectory));
    } else if r.Success? {
      ghost var met := disk.history;
      assert met[from] == disk.dest;
      IndexIndexed(m, disk.canon);
      IndexSize(m.entries);
      r := Traverse(disk, place, Index(m.entries), from, steady, TreeIn(node));
      MatchesIff(TreeIn(node), m, disk.canon, disk.digest);
      assert disk.history[from] == met[from];
      if r.Success? && place.At? {
        AllListed(disk.history, from, place.name, m, disk.canon, disk.digest);
      }
    }
  }

  lemma AllListed(history: seq<Destinations>, from: nat, name: string, m: FolderManifest, canon: Canonical,
                  digest: Digest)
    requires WellFormed(m, canon)
    requires AllEvident(At(name), history, from, Index(m.entries), Index(m.entries).Keys, digest)
    ensures forall k :: 0 <= k < |m.entries| ==> EntryChecked(history, from, name, m.entries[k], digest)
  {
    forall k | 0 <= k < |m.entries| ensures EntryChecked(history, from, name, m.entries[k], digest) {
      IndexExact(m, canon, k);
      assert Evident(At(name), history, from, Index(m.entries)[m.entries[k].path], digest);
    }
  }
}

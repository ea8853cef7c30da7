// The sender's folder scan, and its agreement with the receiver's check.
module FolderScan {
  import opened Wrappers
  import opened Text
  import opened Names
  import opened Manifest
  import opened FolderTree

  // The modification time read for a path, in milliseconds.
  type Times = string -> nat

  datatype ScannedEntry = ScannedEntry(wire: FolderEntry, source: Option<string>)

  datatype FolderSource = FolderSource(manifest: FolderManifest, files: seq<string>)

  predicate Regular(item: Item) {
    item.DirItem? || item.FileItem?
  }

  function EntryOf(t: Tree, p: string, digest: Digest, times: Times): FolderEntry
    requires p in t && (t[p].FileItem? ==> |t[p].data| <= U64_MAX)
  {
    if t[p].FileItem? then FolderEntry(p, File, |t[p].data|, times(p), digest(t[p].data))
    else FolderEntry(p, Directory, 0, times(p), "")
  }

  // `es` lists exactly the nodes of the tree, in strict path order.
  ghost predicate Lists(es: seq<FolderEntry>, t: Tree, digest: Digest, times: Times)
    requires IsTree(t)
  {
    && Sorted(es)
    && (forall i :: 0 <= i < |es| ==>
         es[i].path in t && Regular(t[es[i].path]) && es[i] == EntryOf(t, es[i].path, digest, times))
    && (forall p :: p in t ==> Listed(es, p))
  }

  // The paths of the file entries, in order.
  function FilePaths(es: seq<FolderEntry>): (paths: seq<string>)
    ensures |paths| == |FileEntries(es)| && forall i :: 0 <= i < |paths| ==> paths[i] == FileEntries(es)[i].path
  {
    seq(|FileEntries(es)|, i requires 0 <= i < |FileEntries(es)| => FileEntries(es)[i].path)
  }

  lemma FilePathsMore(es: seq<FolderEntry>, e: FolderEntry)
    ensures FilePaths(es + [e]) == FilePaths(es) + (if e.kind.File? then [e.path] else [])
  {
    assert (es + [e])[..|es|] == es;
  }

  // ---------- collecting ----------

  function ScanOf(t: Tree, p: string, digest: Digest, times: Times): ScannedEntry
    requires p in t && (t[p].FileItem? ==> |t[p].data| <= U64_MAX)
  {
    ScannedEntry(EntryOf(t, p, digest, times), if t[p].FileItem? then Some(p) else None)
  }

  ghost predicate ScannedFrom(e: ScannedEntry, t: Tree, digest: Digest, times: Times)
    requires IsTree(t)
  {
    var p := e.wire.path;
    p in t && Scannable(t, p) && e == ScanOf(t, p, digest, times)
  }

  ghost predicate Scannable(t: Tree, p: string)
    requires p in t
  {
    ValidRelativePath(p) && Regular(t[p])
  }

  ghost function PathsOf(scanned: seq<ScannedEntry>): set<string> {
    set i | 0 <= i < |scanned| :: scanned[i].wire.path
  }

  ghost predicate Collected(scanned: seq<ScannedEntry>, seen: set<string>, t: Tree, digest: Digest, times: Times)
    requires IsTree(t)
  {
    && (forall i :: 0 <= i < |scanned| ==> ScannedFrom(scanned[i], t, digest, times))
    && seen == PathsOf(scanned)
    && Distinct(scanned)
    && |seen| == |scanned|
  }

  ghost predicate Distinct(scanned: seq<ScannedEntry>) {
    forall i, j :: 0 <= i < j < |scanned| ==> scanned[i].wire.path != scanned[j].wire.path
  }

  lemma DistinctMore(scanned: seq<ScannedEntry>, e: ScannedEntry)
    requires Distinct(scanned) && e.wire.path !in PathsOf(scanned)
    ensures Distinct(scanned + [e])
  {
    assert forall i :: 0 <= i < |scanned| ==> scanned[i].wire.path in PathsOf(scanned);
  }

  lemma ScannedMore(scanned: seq<ScannedEntry>, e: ScannedEntry, t: Tree, digest: Digest, times: Times)
    requires IsTree(t) && ScannedFrom(e, t, digest, times)
    requires forall i :: 0 <= i < |scanned| ==> ScannedFrom(scanned[i], t, digest, times)
    ensures forall i :: 0 <= i < |scanned + [e]| ==> ScannedFrom((scanned + [e])[i], t, digest, times)
  {
  }

  lemma PathsOfMore(scanned: seq<ScannedEntry>, e: ScannedEntry)
    ensures PathsOf(scanned + [e]) == PathsOf(scanned) + {e.wire.path}
  {
    var more := scanned + [e];
    assert more[|scanned|] == e;
    forall q | q in PathsOf(scanned) ensures q in PathsOf(more) {
      var i :| 0 <= i < |scanned| && scanned[i].wire.path == q;
      assert more[i].wire.path == q;
    }
  }

  lemma CollectMore(scanned: seq<ScannedEntry>, seen: set<string>, t: Tree, digest: Digest, times: Times, p: string)
    requires IsTree(t) && Collected(scanned, seen, t, digest, times)
    requires p in t && p !in seen && Scannable(t, p)
    ensures Collected(scanned + [ScanOf(t, p, digest, times)], seen + {p}, t, digest, times)
  {
    var e := ScanOf(t, p, digest, times);
    PathsOfMore(scanned, e);
    DistinctMore(scanned, e);
    ScannedMore(scanned, e, t, digest, times);
  }

  // The items of one directory, in whatever order they come.
  method ScanDirectory(t: Tree, directory: string, digest: Digest, times: Times,
                       scanned0: seq<ScannedEntry>, stack0: seq<string>, ghost seen0: set<string>,
                       ghost expanded: set<string>)
    returns (r: Result<(seq<ScannedEntry>, seq<string>), FolderError>, ghost seen: set<string>)
    requires IsTree(t) && Walk(t, seen0, stack0, expanded, Children(t, directory))
    requires Collected(scanned0, seen0, t, digest, times)
    ensures r.Success? ==> Walk(t, seen, r.value.1, expanded, {}) && Collected(r.value.0, seen, t, digest, times)
    ensures r.Failure? ==> (exists p :: p in t && !Scannable(t, p)) || |t.Keys| > MAX_FOLDER_ENTRIES
  {
    var scanned, stack := scanned0, stack0;
    seen := seen0;
    var pending := Children(t, directory);
    while pending != {}
      invariant Walk(t, seen, stack, expanded, pending)
      invariant pending <= Children(t, directory)
      invariant Collected(scanned, seen, t, digest, times)
      decreases pending
    {
      var item :| item in pending;
      WalkVisit(t, seen, stack, expanded, pending, item);
      JoinParts(item);
      var relative := Join(directory, BaseName(item));
      if !ValidRelativePath(relative) {
        return Failure(InvalidPath), seen;
      }
      if t[item].LinkItem? {
        return Failure(SymbolicLink), seen;
      }
      if !t[item].DirItem? && !t[item].FileItem? {
        return Failure(SpecialFile), seen;
      }
      CollectMore(scanned, seen, t, digest, times, item);
      scanned := scanned + [ScanOf(t, relative, digest, times)];
      stack := if t[item].DirItem? then stack + [relative] else stack;
      seen := seen + {item};
      pending := pending - {item};
      if |scanned| > MAX_FOLDER_ENTRIES {
        SubsetSize(seen, t.Keys);
        return Failure(TooManyItems), seen;
      }
    }
    return Success((scanned, stack)), seen;
  }

  // ---------- sorting ----------

  function Insert(e: ScannedEntry, es: seq<ScannedEntry>): (r: seq<ScannedEntry>)
    ensures multiset(r) == multiset([e] + es)
  {
    if es == [] then [e]
    else if Less(e.wire.path, es[0].wire.path) then [e] + es
    else
      assert es == [es[0]] + es[1..];
      [es[0]] + Insert(e, es[1..])
  }

  function SortByPath(es: seq<ScannedEntry>): (r: seq<ScannedEntry>)
    ensures multiset(r) == multiset(es)
  {
    if es == [] then []
    else
      assert es == [es[0]] + es[1..];
      Insert(es[0], SortByPath(es[1..]))
  }

  lemma SortSame(es: seq<ScannedEntry>, e: ScannedEntry)
    ensures e in SortByPath(es) <==> e in es
  {
    assert e in multiset(SortByPath(es)) <==> e in multiset(es);
  }

  ghost predicate InOrder(es: seq<ScannedEntry>) {
    forall i, j :: 0 <= i < j < |es| ==> Less(es[i].wire.path, es[j].wire.path)
  }

  lemma {:induction false} InsertInOrder(e: ScannedEntry, es: seq<ScannedEntry>)
    requires InOrder(es) && forall i :: 0 <= i < |es| ==> es[i].wire.path != e.wire.path
    ensures InOrder(Insert(e, es))
  {
    if es == [] {
    } else if Less(e.wire.path, es[0].wire.path) {
      forall i | 0 < i < |es| ensures Less(e.wire.path, es[i].wire.path) {
        LessTrans(e.wire.path, es[0].wire.path, es[i].wire.path);
      }
    } else {
      LessTotal(e.wire.path, es[0].wire.path);
      InsertInOrder(e, es[1..]);
      var tail := Insert(e, es[1..]);
      forall i | 0 <= i < |tail| ensures Less(es[0].wire.path, tail[i].wire.path) {
        assert tail[i] in multiset(tail);
        assert tail[i] == e || tail[i] in es[1..];
      }
    }
  }

  lemma {:induction false} SortInOrder(es: seq<ScannedEntry>)
    requires Distinct(es)
    ensures InOrder(SortByPath(es))
  {
    if es != [] {
      SortInOrder(es[1..]);
      var tail := SortByPath(es[1..]);
      forall i | 0 <= i < |tail| ensures tail[i].wire.path != es[0].wire.path {
        assert tail[i] in multiset(tail);
        assert tail[i] in es[1..];
      }
      InsertInOrder(es[0], tail);
    }
  }

  // ---------- the scan ----------

  method Collect(t: Tree, digest: Digest, times: Times) returns (r: Result<seq<ScannedEntry>, FolderError>)
    requires IsTree(t)
    ensures r.Success? ==> Collected(r.value, t.Keys, t, digest, times)
    ensures r.Failure? ==> (exists p :: p in t && !Scannable(t, p)) || |t.Keys| > MAX_FOLDER_ENTRIES
  {
    var scanned: seq<ScannedEntry> := [];
    var stack := [""];
    ghost var seen: set<string> := {};
    ghost var expanded: set<string> := {};
    ghost var places := t.Keys + {""};
    while stack != []
      invariant Walk(t, seen, stack, expanded, {})
      invariant Collected(scanned, seen, t, digest, times)
      decreases places - expanded
    {
      WalkPop(t, seen, stack, expanded);
      var directory := stack[|stack| - 1];
      stack := stack[..|stack| - 1];
      assert directory in places - expanded;
      expanded := expanded + {directory};
      var visited: Result<(seq<ScannedEntry>, seq<string>), FolderError>;
      visited, seen := ScanDirectory(t, directory, digest, times, scanned, stack, seen, expanded);
      if visited.Failure? {
        return Failure(visited.error);
      }
      scanned, stack := visited.value.0, visited.value.1;
    }
    WalkDone(t, seen, expanded);
    return Success(scanned);
  }

  // Splits the sorted entries into the manifest and the sources of its files.
  method SplitSources(sorted: seq<ScannedEntry>) returns (entries: seq<FolderEntry>, files: seq<string>)
    requires forall i :: 0 <= i < |sorted| ==>
      sorted[i].source == if sorted[i].wire.kind.File? then Some(sorted[i].wire.path) else None
    ensures Aligned(sorted, entries)
    ensures files == FilePaths(entries)
  {
    entries, files := [], [];
    for k := 0 to |sorted|
      invariant |entries| == k && forall i :: 0 <= i < k ==> entries[i] == sorted[i].wire
      invariant files == FilePaths(entries)
    {
      FilePathsMore(entries, sorted[k].wire);
      entries := entries + [sorted[k].wire];
      if sorted[k].source.Some? {
        files := files + [sorted[k].source.value];
      }
    }
  }

  ghost predicate Aligned(sorted: seq<ScannedEntry>, entries: seq<FolderEntry>) {
    |entries| == |sorted| && forall i :: 0 <= i < |sorted| ==> entries[i] == sorted[i].wire
  }

  lemma AlignedSorted(sorted: seq<ScannedEntry>, entries: seq<FolderEntry>)
    requires InOrder(sorted) && Aligned(sorted, entries)
    ensures Sorted(entries)
  {
  }

  lemma AlignedListed(scanned: seq<ScannedEntry>, entries: seq<FolderEntry>, p: string)
    requires Aligned(SortByPath(scanned), entries) && p in PathsOf(scanned)
    ensures Listed(entries, p)
  {
    SortedHasPath(scanned, p);
    var j :| 0 <= j < |entries| && SortByPath(scanned)[j].wire.path == p;
    assert entries[j].path == p;
  }

  lemma SortedLists(scanned: seq<ScannedEntry>, entries: seq<FolderEntry>, t: Tree, digest: Digest, times: Times)
    requires IsTree(t) && Collected(scanned, t.Keys, t, digest, times)
    requires Aligned(SortByPath(scanned), entries)
    ensures Lists(entries, t, digest, times)
  {
    SortInOrder(scanned);
    AlignedSorted(SortByPath(scanned), entries);
    forall i | 0 <= i < |entries| ensures ScannedFrom(SortByPath(scanned)[i], t, digest, times) {
      SortSame(scanned, SortByPath(scanned)[i]);
    }
    forall p | p in t ensures Listed(entries, p) {
      AlignedListed(scanned, entries, p);
    }
  }

  lemma SortedHasPath(scanned: seq<ScannedEntry>, p: string)
    requires p in PathsOf(scanned)
    ensures exists j :: 0 <= j < |SortByPath(scanned)| && SortByPath(scanned)[j].wire.path == p
  {
    var i :| 0 <= i < |scanned| && scanned[i].wire.path == p;
    SortSame(scanned, scanned[i]);
  }

  lemma SortedSources(scanned: seq<ScannedEntry>, t: Tree, digest: Digest, times: Times, i: nat)
    requires IsTree(t) && Collected(scanned, t.Keys, t, digest, times) && i < |SortByPath(scanned)|
    ensures var e := SortByPath(scanned)[i]; e.source == if e.wire.kind.File? then Some(e.wire.path) else None
  {
    SortSame(scanned, SortByPath(scanned)[i]);
  }

  // The scan succeeds exactly when some well-formed manifest lists the tree; it returns that one,
  // and `files[i]` is the source of its i-th file.
  method Scan(root: Item, t: Tree, canon: Canonical, digest: Digest, times: Times)
    returns (r: Result<FolderSource, FolderError>)
    requires IsTree(t)
    ensures r.Success? ==>
      && Lists(r.value.manifest.entries, t, digest, times)
      && WellFormed(r.value.manifest, canon)
      && r.value.files == FilePaths(r.value.manifest.entries)
    ensures r.Success? <==> root.DirItem? && exists m :: WellFormed(m, canon) && Lists(m.entries, t, digest, times)
  {
    if !root.DirItem? {
      return Failure(NotADirectory);
    }
    var collected := Collect(t, digest, times);
    if collected.Failure? {
      NoListing(t, canon, digest, times);
      return Failure(collected.error);
    }
    var sorted := SortByPath(collected.value);
    forall i | 0 <= i < |sorted|
      ensures sorted[i].source == if sorted[i].wire.kind.File? then Some(sorted[i].wire.path) else None
    {
      SortedSources(collected.value, t, digest, times, i);
    }
    var entries, files := SplitSources(sorted);
    SortedLists(collected.value, entries, t, digest, times);
    var manifest := FolderManifest(1, entries);
    var checked := Validate(manifest, canon);
    if checked.Failure? {
      forall m | WellFormed(m, canon) && Lists(m.entries, t, digest, times) ensures m == manifest {
        ListingUnique(m.entries, entries, t, digest, times);
      }
      return Failure(BadManifest(checked.error));
    }
    return Success(FolderSource(manifest, files));
  }

  // Only a tree of at most MAX_FOLDER_ENTRIES regular items with valid paths has a listing.
  lemma ListingBounds(m: FolderManifest, t: Tree, canon: Canonical, digest: Digest, times: Times)
    requires IsTree(t) && WellFormed(m, canon) && Lists(m.entries, t, digest, times)
    ensures |t.Keys| <= MAX_FOLDER_ENTRIES
    ensures forall p :: p in t ==> Scannable(t, p)
  {
    var es := m.entries;
    ListedSize(es, t.Keys);
    forall p | p in t ensures Scannable(t, p) {
      assert Listed(es, p);
      var i :| 0 <= i < |es| && es[i].path == p;
      assert EntryOk(es[i]);
    }
  }

  lemma NoListing(t: Tree, canon: Canonical, digest: Digest, times: Times)
    requires IsTree(t) && ((exists p :: p in t && !Scannable(t, p)) || |t.Keys| > MAX_FOLDER_ENTRIES)
    ensures forall m :: WellFormed(m, canon) ==> !Lists(m.entries, t, digest, times)
  {
    forall m | WellFormed(m, canon) ensures !Lists(m.entries, t, digest, times) {
      if Lists(m.entries, t, digest, times) {
        ListingBounds(m, t, canon, digest, times);
        assert false;
      }
    }
  }

  lemma {:induction false} ListedSize(es: seq<FolderEntry>, paths: set<string>)
    requires forall p :: p in paths ==> Listed(es, p)
    ensures |paths| <= |es|
    decreases |es|
  {
    if es == [] {
      if p :| p in paths {
        assert Listed(es, p);
      }
    } else {
      var last := es[|es| - 1];
      var rest := paths - {last.path};
      forall p | p in rest ensures Listed(es[..|es| - 1], p) {
        var i :| 0 <= i < |es| && es[i].path == p;
        assert es[..|es| - 1][i].path == p;
      }
      ListedSize(es[..|es| - 1], rest);
      assert paths <= rest + {last.path};
      SubsetSize(paths, rest + {last.path});
    }
  }

  // A tree has at most one listing, whatever order the directories were read in.
  lemma {:induction false} ListingUnique(a: seq<FolderEntry>, b: seq<FolderEntry>, t: Tree, digest: Digest,
                                         times: Times)
    requires IsTree(t) && Lists(a, t, digest, times) && Lists(b, t, digest, times)
    ensures a == b
  {
    ListingContains(a, b, t, digest, times);
    ListingContains(b, a, t, digest, times);
    SortedUnique(a, b);
  }

  lemma ListingContains(a: seq<FolderEntry>, b: seq<FolderEntry>, t: Tree, digest: Digest, times: Times)
    requires IsTree(t) && Lists(a, t, digest, times) && Lists(b, t, digest, times)
    ensures forall e :: e in a ==> e in b
  {
    forall e | e in a ensures e in b {
      var k :| 0 <= k < |a| && a[k] == e;
      assert Listed(b, e.path);
      var l :| 0 <= l < |b| && b[l].path == e.path;
      assert b[l] == EntryOf(t, e.path, digest, times) == a[k];
    }
  }

  lemma {:induction false} SortedUnique(a: seq<FolderEntry>, b: seq<FolderEntry>)
    requires Sorted(a) && Sorted(b)
    requires forall e :: e in a <==> e in b
    ensures a == b
  {
    assert b != [] ==> b[0] in a;
    if a != [] {
      assert a[0] in b;
      LessTotal(a[0].path, b[0].path);
      assert a[0] == b[0];
      TailElements(a);
      TailElements(b);
      SortedUnique(a[1..], b[1..]);
    }
  }

  lemma TailElements(a: seq<FolderEntry>)
    requires Sorted(a) && a != []
    ensures forall e :: e in a[1..] <==> e in a && e != a[0]
  {
    forall e | e in a[1..] ensures e in a && e != a[0] {
      var k :| 1 <= k < |a| && a[k] == e;
      LessTotal(a[0].path, e.path);
    }
    assert a == [a[0]] + a[1..];
  }

  // ---------- agreement ----------

  // The receiver's check accepts the scanned tree.
  lemma ScannedTreeMatches(t: Tree, m: FolderManifest, digest: Digest, times: Times)
    requires IsTree(t) && Lists(m.entries, t, digest, times)
    ensures Matches(t, m, digest)
  {
  }

  // A tree the check accepts has the scanned tree's paths, kinds, sizes and digests.
  lemma AcceptedTreeEqualsScanned(t: Tree, u: Tree, m: FolderManifest, digest: Digest, times: Times)
    requires IsTree(t) && Lists(m.entries, t, digest, times) && Matches(u, m, digest)
    ensures u.Keys == t.Keys
    ensures forall p :: p in t ==> SameNode(t[p], u[p], digest)
  {
    var es := m.entries;
    forall p | p in t ensures p in u && SameNode(t[p], u[p], digest) {
      assert Listed(es, p);
      var i :| 0 <= i < |es| && es[i].path == p;
      assert es[i] == EntryOf(t, p, digest, times);
    }
    forall p | p in u ensures p in t {
      assert Listed(es, p);
      var i :| 0 <= i < |es| && es[i].path == p;
    }
  }

  // With a digest that does not collide, it is the scanned tree.
  lemma AcceptedTreeIsScanned(t: Tree, u: Tree, m: FolderManifest, digest: Digest, times: Times)
    requires IsTree(t) && Lists(m.entries, t, digest, times) && Matches(u, m, digest)
    requires forall x, y :: digest(x) == digest(y) ==> x == y
    ensures u == t
  {
    AcceptedTreeEqualsScanned(t, u, m, digest, times);
    forall p | p in t ensures u[p] == t[p] {
      assert SameNode(t[p], u[p], digest);
    }
  }

  ghost predicate SameNode(a: Item, b: Item, digest: Digest) {
    match (a, b)
    case (FileItem(x), FileItem(y)) => |x| == |y| && digest(x) == digest(y)
    case _ => a == b
  }
}

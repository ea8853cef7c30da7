// Directory trees on disk, the sender's scan and the receiver's check of a tree against a manifest.
// A tree is a finite map from relative path to item; the two traversals differ in what they do
// with an item, and both may meet the items of a directory in any order.
module FolderTree {
  import opened Text
  import opened Manifest

  datatype Item = FileItem(data: seq<byte>) | DirItem | LinkItem | SpecialItem

  type Tree = map<string, Item>

  type Digest = seq<byte> -> string

  function ParentDir(path: string): string {
    var i := LastIndexOf(path, '/');
    if i < 0 then "" else path[..i]
  }

  function BaseName(path: string): string {
    path[LastIndexOf(path, '/') + 1..]
  }

  function Join(parent: string, name: string): string {
    if parent == "" then name else parent + "/" + name
  }

  // A path whose first and last components are not empty.
  predicate Named(p: string) {
    p != "" && p[0] != '/' && p[|p| - 1] != '/'
  }

  // What any file system guarantees of its entries.
  ghost predicate IsTree(t: Tree) {
    && (forall p {:trigger ParentDir(p)} {:trigger Named(p)} :: p in t ==>
      && Named(p)
      && (ParentDir(p) != "" ==> ParentDir(p) in t && t[ParentDir(p)].DirItem?))
    && (forall p :: p in t && t[p].FileItem? ==> |t[p].data| <= U64_MAX)
  }

  type FsTree = t: Tree | IsTree(t) witness map[]

  function Children(t: Tree, dir: string): set<string> {
    set p | p in t && ParentDir(p) == dir
  }

  lemma JoinParts(p: string)
    requires Named(p)
    ensures Join(ParentDir(p), BaseName(p)) == p
    ensures |ParentDir(p)| < |p|
  {
    var i := LastIndexOf(p, '/');
    assert i != 0;
    if i > 0 {
      assert ParentDir(p) != "";
      assert p[..i] + "/" + p[i + 1..] == p;
    } else {
      assert p[0..] == p;
    }
  }

  // ---------- the traversal ----------

  // `seen` has been met, `stack` waits to be opened, `expanded` has been opened and `pending` is
  // what is still to come of the opened directories.
  ghost predicate Visited(t: Tree, seen: set<string>, expanded: set<string>, pending: set<string>) {
    && seen <= t.Keys && pending <= t.Keys && expanded <= seen + {""}
    && (forall p :: p in t && ParentDir(p) in expanded ==> (p in seen <==> p !in pending))
    && (forall p :: p in seen || p in pending ==> ParentDir(p) in expanded)
  }

  ghost predicate Waiting(t: Tree, seen: set<string>, stack: seq<string>, expanded: set<string>) {
    && (forall p :: p in seen && p in t && t[p].DirItem? ==> p in expanded || p in stack)
    && ("" in expanded || "" in stack)
    && (forall p :: p in stack ==> p !in expanded && (p == "" || (p in seen && p in t && t[p].DirItem?)))
    && (forall i, j :: 0 <= i < j < |stack| ==> stack[i] != stack[j])
  }

  ghost predicate Walk(t: Tree, seen: set<string>, stack: seq<string>, expanded: set<string>, pending: set<string>) {
    Visited(t, seen, expanded, pending) && Waiting(t, seen, stack, expanded)
  }

  lemma PopWaiting(t: Tree, seen: set<string>, rest: seq<string>, dir: string, expanded: set<string>)
    requires Waiting(t, seen, rest + [dir], expanded)
    ensures dir !in expanded && dir in seen + {""}
    ensures Waiting(t, seen, rest, expanded + {dir})
  {
    var stack := rest + [dir];
    assert stack[|rest|] == dir && dir in stack;
    assert forall i :: 0 <= i < |rest| ==> stack[i] == rest[i];
    forall p | p in rest ensures p in stack && p != dir {
      var i :| 0 <= i < |rest| && rest[i] == p;
      assert stack[i] == p;
    }
  }

  lemma PopVisited(t: Tree, seen: set<string>, dir: string, expanded: set<string>)
    requires Visited(t, seen, expanded, {}) && dir !in expanded && dir in seen + {""}
    ensures Visited(t, seen, expanded + {dir}, Children(t, dir))
  {
  }

  lemma WalkPop(t: Tree, seen: set<string>, stack: seq<string>, expanded: set<string>)
    requires IsTree(t) && Walk(t, seen, stack, expanded, {}) && stack != []
    ensures var dir := stack[|stack| - 1];
      && dir !in expanded && dir in seen + {""} && (dir == "" || (dir in t && t[dir].DirItem?))
      && Walk(t, seen, stack[..|stack| - 1], expanded + {dir}, Children(t, dir))
  {
    var dir, rest := stack[|stack| - 1], stack[..|stack| - 1];
    assert stack == rest + [dir];
    PopWaiting(t, seen, rest, dir, expanded);
    PopVisited(t, seen, dir, expanded);
  }

  lemma VisitWaiting(t: Tree, seen: set<string>, stack: seq<string>, expanded: set<string>, p: string)
    requires Waiting(t, seen, stack, expanded) && p in t && p !in seen && p !in expanded && p != ""
    ensures Waiting(t, seen + {p}, if t[p].DirItem? then stack + [p] else stack, expanded)
  {
    var more := stack + [p];
    assert forall q :: q in more <==> q in stack || q == p;
  }

  lemma VisitVisited(t: Tree, seen: set<string>, expanded: set<string>, pending: set<string>, p: string)
    requires Visited(t, seen, expanded, pending) && p in pending
    ensures Visited(t, seen + {p}, expanded, pending - {p})
  {
  }

  lemma WalkVisit(t: Tree, seen: set<string>, stack: seq<string>, expanded: set<string>, pending: set<string>,
                  p: string)
    requires IsTree(t) && Walk(t, seen, stack, expanded, pending) && p in pending
    ensures p !in seen && p in t
    ensures Walk(t, seen + {p}, if t[p].DirItem? then stack + [p] else stack, expanded, pending - {p})
  {
    assert p != "" && p !in seen;
    VisitWaiting(t, seen, stack, expanded, p);
    VisitVisited(t, seen, expanded, pending, p);
  }

  // When nothing waits any more, the whole tree has been met.
  lemma WalkDone(t: Tree, seen: set<string>, expanded: set<string>)
    requires IsTree(t) && Walk(t, seen, [], expanded, {})
    ensures seen == t.Keys
  {
    forall p | p in t ensures p in seen {
      Reached(t, seen, expanded, p);
    }
  }

  lemma {:induction false} Reached(t: Tree, seen: set<string>, expanded: set<string>, p: string)
    requires IsTree(t) && Walk(t, seen, [], expanded, {}) && p in t
    ensures p in seen
    decreases |p|
  {
    var parent := ParentDir(p);
    JoinParts(p);
    if parent != "" {
      Reached(t, seen, expanded, parent);
    }
  }

  // ---------- a tree against a manifest ----------

  predicate ItemMatches(item: Item, e: FolderEntry, digest: Digest) {
    match e.kind
    case Directory => item.DirItem?
    case File => item.FileItem? && |item.data| == e.size && digest(item.data) == e.blake3
  }

  // The tree has exactly the listed paths, with the listed kinds, sizes and digests.
  ghost predicate Matches(t: Tree, m: FolderManifest, digest: Digest) {
    && (forall i :: 0 <= i < |m.entries| ==>
         m.entries[i].path in t && ItemMatches(t[m.entries[i].path], m.entries[i], digest))
    && (forall p :: p in t ==> Listed(m.entries, p))
  }

  ghost predicate Listed(es: seq<FolderEntry>, p: string) {
    exists i :: 0 <= i < |es| && es[i].path == p
  }

  datatype FolderError =
    | NotADirectory | BadManifest(cause: ManifestError) | InvalidPath | UnexpectedEntry | DuplicateEntry
    | SymbolicLink | SpecialFile | Mismatch | MissingEntry | TooManyItems

  ghost predicate Fits(t: Tree, expected: map<string, FolderEntry>, digest: Digest, p: string)
    requires p in t
  {
    p in expected && ItemMatches(t[p], expected[p], digest)
  }

  lemma IndexExact(m: FolderManifest, canon: Canonical, i: nat)
    requires WellFormed(m, canon) && i < |m.entries|
    ensures m.entries[i].path in Index(m.entries) && Index(m.entries)[m.entries[i].path] == m.entries[i]
  {
    var es, expected := m.entries, Index(m.entries);
    var j :| 0 <= j < |es| && es[j].path == es[i].path && es[j] == expected[es[i].path];
    PathsDistinct(es, i, j);
  }

  lemma MatchesFits(t: Tree, m: FolderManifest, canon: Canonical, digest: Digest)
    requires WellFormed(m, canon) && Matches(t, m, digest)
    ensures t.Keys == Index(m.entries).Keys && forall p :: p in t ==> Fits(t, Index(m.entries), digest, p)
  {
    var es, expected := m.entries, Index(m.entries);
    forall p | p in t ensures p in expected && Fits(t, expected, digest, p) {
      assert Listed(es, p);
      var i :| 0 <= i < |es| && es[i].path == p;
      ListedFits(t, m, canon, digest, i);
    }
    forall p | p in expected ensures p in t {
      var i :| 0 <= i < |es| && es[i].path == p;
    }
  }

  lemma ListedFits(t: Tree, m: FolderManifest, canon: Canonical, digest: Digest, i: nat)
    requires WellFormed(m, canon) && i < |m.entries|
    requires m.entries[i].path in t && ItemMatches(t[m.entries[i].path], m.entries[i], digest)
    ensures Fits(t, Index(m.entries), digest, m.entries[i].path)
  {
    IndexExact(m, canon, i);
    assert EntryOk(m.entries[i]);
  }

  lemma FitsMatches(t: Tree, m: FolderManifest, canon: Canonical, digest: Digest)
    requires WellFormed(m, canon)
    requires t.Keys == Index(m.entries).Keys && forall p :: p in t ==> Fits(t, Index(m.entries), digest, p)
    ensures Matches(t, m, digest)
  {
    var es, expected := m.entries, Index(m.entries);
    forall i | 0 <= i < |es| ensures es[i].path in t && ItemMatches(t[es[i].path], es[i], digest) {
      IndexExact(m, canon, i);
    }
    forall p | p in t ensures Listed(es, p) {
      var i :| 0 <= i < |es| && es[i].path == p;
    }
  }

  ghost predicate AllFit(t: Tree, expected: map<string, FolderEntry>, digest: Digest) {
    t.Keys == expected.Keys && forall p :: p in t ==> Fits(t, expected, digest, p)
  }

  lemma MatchesIff(t: Tree, m: FolderManifest, canon: Canonical, digest: Digest)
    requires WellFormed(m, canon)
    ensures Matches(t, m, digest) <==> AllFit(t, Index(m.entries), digest)
  {
    if Matches(t, m, digest) {
      MatchesFits(t, m, canon, digest);
    }
    if AllFit(t, Index(m.entries), digest) {
      FitsMatches(t, m, canon, digest);
    }
  }

  // The lookup table from path to entry.
  function Index(es: seq<FolderEntry>): (m: map<string, FolderEntry>)
    ensures forall p :: p in m ==> exists i :: 0 <= i < |es| && es[i].path == p && es[i] == m[p]
    ensures forall i :: 0 <= i < |es| ==> es[i].path in m
  {
    if es == [] then map[]
    else
      var init := es[..|es| - 1];
      assert forall i :: 0 <= i < |init| ==> es[i] == init[i];
      Index(init)[es[|es| - 1].path := es[|es| - 1]]
  }

  lemma {:induction false} IndexSize(es: seq<FolderEntry>)
    ensures |Index(es)| <= |es|
  {
    if es != [] {
      IndexSize(es[..|es| - 1]);
    }
  }

  // What a recursive removal that was stopped may have left.
  function Within(t: FsTree, survivors: set<string>): (u: FsTree)
    ensures u.Keys <= t.Keys && forall p :: p in u ==> u[p] == t[p]
  {
    var u := map p | p in t && Survives(p, survivors) :: t[p];
    WithinIsTree(t, survivors, u);
    u
  }

  predicate Survives(p: string, survivors: set<string>) {
    p in survivors && forall i :: 0 <= i < |p| && p[i] == '/' ==> p[..i] in survivors
  }

  lemma WithinIsTree(t: FsTree, survivors: set<string>, u: Tree)
    requires u == map p | p in t && Survives(p, survivors) :: t[p]
    ensures IsTree(u)
  {
    forall p | p in u && ParentDir(p) != "" ensures ParentDir(p) in u {
      assert Survives(p, survivors);
      ParentSurvives(p, survivors);
      assert p in t && ParentDir(p) in t;
    }
  }

  lemma ParentSurvives(p: string, survivors: set<string>)
    requires Survives(p, survivors) && ParentDir(p) != ""
    ensures Survives(ParentDir(p), survivors)
  {
    var a := ParentDir(p);
    assert p[|a|] == '/' && a == p[..|a|];
    forall i | 0 <= i < |a| && a[i] == '/' ensures a[..i] in survivors {
      assert p[i] == '/' && p[..i] == a[..i];
    }
  }

  lemma SubsetSize(a: set<string>, b: set<string>)
    requires a <= b
    ensures |a| <= |b|
  {
    assert b == a + (b - a);
  }
}

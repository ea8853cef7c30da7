// Folder manifests: the one-pass check of `FolderManifest::validate` and what it implies.
module Manifest {
  import opened Wrappers
  import opened Text
  import opened Names

  const MAX_FILE_SIZE: int := 0x100_0000_0000
  const MAX_FOLDER_ENTRIES: nat := 100_000

  datatype EntryKind = File | Directory

  datatype FolderEntry = FolderEntry(path: string, kind: EntryKind, size: u64, modifiedMs: int, blake3: string)

  datatype FolderManifest = FolderManifest(version: nat, entries: seq<FolderEntry>)

  datatype ManifestError =
    | UnsupportedVersion | TooManyEntries | BadPath | NotSorted | MissingParent | DuplicatePath
    | BelowFile | NegativeTime | BadFileMetadata | SizeOverflow | TooLarge | BadDirectoryMetadata

  // Unicode normalisation followed by lower-casing; nothing below depends on what it does.
  type Canonical = string -> string

  predicate ValidBlake3(value: string) {
    && |value| == 64
    && forall i :: 0 <= i < 64 ==> '0' <= value[i] <= '9' || 'a' <= value[i] <= 'f'
  }

  // `a` is one of the directories `path` lies in.
  predicate IsAncestor(a: string, path: string) {
    |a| < |path| && path[|a|] == '/' && a == path[..|a|]
  }

  function Parent(path: string): (p: Option<string>)
    ensures p.Some? ==> IsAncestor(p.value, path)
    ensures p.None? ==> '/' !in path
  {
    var i := LastIndexOf(path, '/');
    if i < 0 then None else Some(path[..i])
  }

  lemma AncestorViaParent(a: string, path: string)
    requires IsAncestor(a, path)
    ensures Parent(path).Some?
    ensures a == Parent(path).value || IsAncestor(a, Parent(path).value)
  {
    assert |a| <= LastIndexOf(path, '/');
  }

  // ---------- what a manifest must be ----------

  predicate EntryOk(e: FolderEntry) {
    && ValidRelativePath(e.path)
    && e.modifiedMs >= 0
    && match e.kind
       case File => e.size <= MAX_FILE_SIZE && ValidBlake3(e.blake3)
       case Directory => e.size == 0 && e.blake3 == ""
  }

  function TotalSize(es: seq<FolderEntry>): nat {
    if es == [] then 0 else TotalSize(es[..|es| - 1]) + es[|es| - 1].size
  }

  ghost predicate AllFiles(files: seq<FolderEntry>) {
    forall j :: 0 <= j < |files| ==> files[j].kind.File?
  }

  // The file entries of a manifest, in order.
  function FileEntries(es: seq<FolderEntry>): (files: seq<FolderEntry>)
    ensures AllFiles(files)
  {
    if es == [] then []
    else FileEntries(es[..|es| - 1]) + (if es[|es| - 1].kind.File? then [es[|es| - 1]] else [])
  }

  ghost predicate HasDirectory(es: seq<FolderEntry>, n: nat, a: string, canon: Canonical)
    requires n <= |es|
  {
    exists j :: 0 <= j < n && es[j].kind.Directory? && canon(es[j].path) == a
  }

  ghost predicate Sorted(es: seq<FolderEntry>) {
    forall i, j {:trigger Less(es[i].path, es[j].path)} :: 0 <= i < j < |es| ==> Less(es[i].path, es[j].path)
  }

  ghost predicate CanonicallyDistinct(es: seq<FolderEntry>, canon: Canonical) {
    forall i, j {:trigger canon(es[i].path), canon(es[j].path)} :: 0 <= i < j < |es| ==>
      canon(es[i].path) != canon(es[j].path)
  }

  // Every directory an entry lies in is listed by its canonical path, as a directory, before the entry.
  ghost predicate AncestorsListed(es: seq<FolderEntry>, canon: Canonical) {
    forall i, a :: 0 <= i < |es| && IsAncestor(a, canon(es[i].path)) ==> HasDirectory(es, i, a, canon)
  }

  // A tree up to the spelling of its directories, listed in strict path order, of at most 2^40 bytes.
  ghost predicate TreeListing(es: seq<FolderEntry>, canon: Canonical) {
    && (forall i {:trigger EntryOk(es[i])} :: 0 <= i < |es| ==> EntryOk(es[i]))
    && Sorted(es)
    && CanonicallyDistinct(es, canon)
    && AncestorsListed(es, canon)
    && TotalSize(es) <= MAX_FILE_SIZE
  }

  ghost predicate WellFormed(m: FolderManifest, canon: Canonical) {
    m.version == 1 && |m.entries| <= MAX_FOLDER_ENTRIES && TreeListing(m.entries, canon)
  }

  // ---------- the one-pass check ----------

  ghost function Canonicals(es: seq<FolderEntry>, canon: Canonical): set<string> {
    set i | 0 <= i < |es| :: canon(es[i].path)
  }

  ghost function CanonicalFiles(es: seq<FolderEntry>, canon: Canonical): set<string> {
    set i | 0 <= i < |es| && es[i].kind.File? :: canon(es[i].path)
  }

  // What the loop tests of one more entry: its direct parent is listed, and nothing above it is a file.
  ghost predicate Admits(es: seq<FolderEntry>, e: FolderEntry, canon: Canonical) {
    var c := canon(e.path);
    && EntryOk(e)
    && (es != [] ==> Less(es[|es| - 1].path, e.path))
    && (Parent(c).Some? ==> Parent(c).value in Canonicals(es, canon))
    && c !in Canonicals(es, canon)
    && (forall a :: IsAncestor(a, c) ==> a !in CanonicalFiles(es, canon))
    && TotalSize(es) + e.size <= MAX_FILE_SIZE
  }

  lemma AdmitSorted(es: seq<FolderEntry>, e: FolderEntry)
    requires Sorted(es) && (es != [] ==> Less(es[|es| - 1].path, e.path))
    ensures Sorted(es + [e])
  {
    var more := es + [e];
    forall i, j | 0 <= i < j < |more| ensures Less(more[i].path, more[j].path) {
      if j == |es| && i < |es| - 1 {
        LessTrans(es[i].path, es[|es| - 1].path, e.path);
      }
    }
  }

  lemma AdmitAncestors(es: seq<FolderEntry>, e: FolderEntry, canon: Canonical)
    requires TreeListing(es, canon) && Admits(es, e, canon)
    ensures AncestorsListed(es + [e], canon)
  {
    var more := es + [e];
    forall i, a | 0 <= i < |more| && IsAncestor(a, canon(more[i].path))
      ensures HasDirectory(more, i, a, canon)
    {
      if i < |es| {
        assert HasDirectory(es, i, a, canon);
        var j :| 0 <= j < i && es[j].kind.Directory? && canon(es[j].path) == a;
        assert more[j] == es[j];
      } else {
        AncestorDirectory(es, e, a, canon);
        var j :| 0 <= j < |es| && es[j].kind.Directory? && canon(es[j].path) == a;
        assert more[j] == es[j];
      }
    }
  }

  lemma AdmitExtends(es: seq<FolderEntry>, e: FolderEntry, canon: Canonical)
    requires TreeListing(es, canon) && Admits(es, e, canon)
    ensures TreeListing(es + [e], canon)
  {
    assert (es + [e])[..|es|] == es;
    AdmitSorted(es, e);
    AdmitAncestors(es, e, canon);
  }

  // Testing only the direct parent is enough: the rest of the chain was tested with the parent.
  lemma AncestorDirectory(es: seq<FolderEntry>, e: FolderEntry, a: string, canon: Canonical)
    requires TreeListing(es, canon) && Admits(es, e, canon) && IsAncestor(a, canon(e.path))
    ensures HasDirectory(es, |es|, a, canon)
  {
    var c := canon(e.path);
    AncestorViaParent(a, c);
    var j :| 0 <= j < |es| && canon(es[j].path) == Parent(c).value;
    if a == Parent(c).value {
      assert a !in CanonicalFiles(es, canon);
    } else {
      assert HasDirectory(es, j, a, canon);
    }
  }

  lemma ExtendAdmits(es: seq<FolderEntry>, e: FolderEntry, canon: Canonical)
    requires TreeListing(es + [e], canon)
    ensures TreeListing(es, canon) && Admits(es, e, canon)
  {
    var more := es + [e];
    var c := canon(e.path);
    assert more[..|es|] == es && more[|es|] == e;
    assert forall i :: 0 <= i < |es| ==> more[i] == es[i];
    forall i, a | 0 <= i < |es| && IsAncestor(a, canon(es[i].path))
      ensures HasDirectory(es, i, a, canon)
    {
      assert canon(more[i].path) == canon(es[i].path);
      assert HasDirectory(more, i, a, canon);
    }
    forall a | IsAncestor(a, c)
      ensures a in Canonicals(es, canon) && a !in CanonicalFiles(es, canon)
    {
      assert HasDirectory(more, |es|, a, canon);
      var j :| 0 <= j < |es| && more[j].kind.Directory? && canon(more[j].path) == a;
      assert canon(es[j].path) == a;
      forall f | 0 <= f < |es| && es[f].kind.File? ensures canon(es[f].path) != a {
        assert more[f] == es[f] && f != j;
      }
    }
    forall i | 0 <= i < |es| ensures canon(es[i].path) != c {
      assert more[i] == es[i];
    }
  }

  lemma {:induction false} ListingPrefix(es: seq<FolderEntry>, n: nat, canon: Canonical)
    requires TreeListing(es, canon) && n <= |es|
    ensures TreeListing(es[..n], canon)
    decreases |es|
  {
    if n < |es| {
      var shorter := es[..|es| - 1];
      assert es == shorter + [es[|es| - 1]];
      ExtendAdmits(shorter, es[|es| - 1], canon);
      ListingPrefix(shorter, n, canon);
      assert shorter[..n] == es[..n];
    } else {
      assert es[..n] == es;
    }
  }

  function CheckedAdd(a: u64, b: u64): Option<u64> {
    if a + b <= U64_MAX then Some(a + b) else None
  }

  method BelowAFile(canonical: string, filePaths: set<string>) returns (below: bool)
    ensures below <==> exists a :: IsAncestor(a, canonical) && a in filePaths
  {
    for i := 0 to |canonical|
      invariant forall a :: IsAncestor(a, canonical) && |a| < i ==> a !in filePaths
    {
      if canonical[i] == '/' && canonical[..i] in filePaths {
        assert IsAncestor(canonical[..i], canonical);
        return true;
      }
    }
    return false;
  }

  lemma AdmitsIffExtends(es: seq<FolderEntry>, k: nat, canon: Canonical)
    requires k < |es| && TreeListing(es[..k], canon)
    ensures Admits(es[..k], es[k], canon) ==> TreeListing(es[..k + 1], canon)
    ensures !Admits(es[..k], es[k], canon) ==> !TreeListing(es, canon)
  {
    assert es[..k + 1] == es[..k] + [es[k]];
    if Admits(es[..k], es[k], canon) {
      AdmitExtends(es[..k], es[k], canon);
    } else if TreeListing(es, canon) {
      ListingPrefix(es, k + 1, canon);
      ExtendAdmits(es[..k], es[k], canon);
    }
  }

  // One round of the loop: the new total if the entry may follow the entries before it.
  method CheckEntry(ghost before: seq<FolderEntry>, entry: FolderEntry, canon: Canonical, previousPath: Option<string>,
                    canonicalPaths: set<string>, filePaths: set<string>, totalSize: u64)
    returns (r: Result<u64, ManifestError>)
    requires previousPath == if before == [] then None else Some(before[|before| - 1].path)
    requires canonicalPaths == Canonicals(before, canon) && filePaths == CanonicalFiles(before, canon)
    requires totalSize == TotalSize(before) <= MAX_FILE_SIZE
    ensures r.Success? <==> Admits(before, entry, canon)
    ensures r.Success? ==> r.value == TotalSize(before) + entry.size
    ensures r != Failure(SizeOverflow)
  {
    if !ValidRelativePath(entry.path) {
      return Failure(BadPath);
    }
    if previousPath.Some? && !Less(previousPath.value, entry.path) {
      return Failure(NotSorted);
    }
    var canonical := canon(entry.path);
    if Parent(canonical).Some? && Parent(canonical).value !in canonicalPaths {
      return Failure(MissingParent);
    }
    if canonical in canonicalPaths {
      return Failure(DuplicatePath);
    }
    var below := BelowAFile(canonical, filePaths);
    if below {
      return Failure(BelowFile);
    }
    if entry.modifiedMs < 0 {
      return Failure(NegativeTime);
    }
    match entry.kind {
      case File =>
        if entry.size > MAX_FILE_SIZE || !ValidBlake3(entry.blake3) {
          return Failure(BadFileMetadata);
        }
        var sum := CheckedAdd(totalSize, entry.size);
        if sum.None? {
          return Failure(SizeOverflow);
        }
        if sum.value > MAX_FILE_SIZE {
          return Failure(TooLarge);
        }
        return Success(sum.value);
      case Directory =>
        if entry.size != 0 || entry.blake3 != "" {
          return Failure(BadDirectoryMetadata);
        }
        return Success(totalSize);
    }
  }

  // Accepts exactly the well-formed manifests and returns the exact number of file bytes; neither
  // checked addition can overflow.
  method Validate(m: FolderManifest, canon: Canonical) returns (r: Result<u64, ManifestError>)
    ensures r.Success? <==> WellFormed(m, canon)
    ensures r.Success? ==> r.value == TotalSize(m.entries) <= MAX_FILE_SIZE
    ensures r != Failure(SizeOverflow)
  {
    if m.version != 1 {
      return Failure(UnsupportedVersion);
    }
    var es := m.entries;
    if |es| > MAX_FOLDER_ENTRIES {
      return Failure(TooManyEntries);
    }
    var previousPath: Option<string> := None;
    var canonicalPaths: set<string> := {};
    var filePaths: set<string> := {};
    var totalSize: u64 := 0;
    for k := 0 to |es|
      invariant TreeListing(es[..k], canon)
      invariant previousPath == if k == 0 then None else Some(es[k - 1].path)
      invariant canonicalPaths == Canonicals(es[..k], canon)
      invariant filePaths == CanonicalFiles(es[..k], canon)
      invariant totalSize == TotalSize(es[..k])
    {
      var entry := es[k];
      AdmitsIffExtends(es, k, canon);
      var checked := CheckEntry(es[..k], entry, canon, previousPath, canonicalPaths, filePaths, totalSize);
      if checked.Failure? {
        return Failure(checked.error);
      }
      NextPrefix(es, k, canon);
      previousPath := Some(entry.path);
      totalSize := checked.value;
      canonicalPaths := canonicalPaths + {canon(entry.path)};
      filePaths := if entry.kind.File? then filePaths + {canon(entry.path)} else filePaths;
    }
    assert es[..|es|] == es;
    return Success(totalSize);
  }

  lemma NextPrefix(es: seq<FolderEntry>, k: nat, canon: Canonical)
    requires k < |es|
    ensures Canonicals(es[..k + 1], canon) == Canonicals(es[..k], canon) + {canon(es[k].path)}
    ensures CanonicalFiles(es[..k + 1], canon)
         == CanonicalFiles(es[..k], canon) + (if es[k].kind.File? then {canon(es[k].path)} else {})
    ensures TotalSize(es[..k + 1]) == TotalSize(es[..k]) + es[k].size
  {
    assert es[..k + 1] == es[..k] + [es[k]] && es[..k + 1][..k] == es[..k];
    GrowSets(es[..k], es[k], canon);
  }

  lemma GrowSets(es: seq<FolderEntry>, e: FolderEntry, canon: Canonical)
    ensures Canonicals(es + [e], canon) == Canonicals(es, canon) + {canon(e.path)}
    ensures CanonicalFiles(es + [e], canon)
         == CanonicalFiles(es, canon) + (if e.kind.File? then {canon(e.path)} else {})
  {
    var more := es + [e];
    assert forall i :: 0 <= i < |es| ==> more[i] == es[i];
    assert more[|es|] == e;
    forall c | c in Canonicals(es, canon) ensures c in Canonicals(more, canon) {
      var i :| 0 <= i < |es| && canon(es[i].path) == c;
      assert canon(more[i].path) == c;
    }
    forall c | c in CanonicalFiles(es, canon) ensures c in CanonicalFiles(more, canon) {
      var i :| 0 <= i < |es| && es[i].kind.File? && canon(es[i].path) == c;
      assert canon(more[i].path) == c;
    }
    assert canon(more[|es|].path) in Canonicals(more, canon);
  }

  // ---------- consequences ----------

  // Whatever has something below it, on any platform that folds names the way `canon` does, is a
  // directory listed earlier; so files are leaves.
  lemma OnlyDirectoriesHaveDescendants(es: seq<FolderEntry>, canon: Canonical, d: nat, i: nat)
    requires TreeListing(es, canon) && d < |es| && i < |es|
    requires IsAncestor(canon(es[d].path), canon(es[i].path))
    ensures es[d].kind.Directory? && d < i
  {
    assert HasDirectory(es, i, canon(es[d].path), canon);
  }

  // Paths are pairwise distinct, so a manifest is a finite map from path to entry.
  lemma PathsDistinct(es: seq<FolderEntry>, i: nat, j: nat)
    requires Sorted(es) && i < |es| && j < |es| && es[i].path == es[j].path
    ensures i == j
  {
    LessTotal(es[i].path, es[j].path);
  }
}

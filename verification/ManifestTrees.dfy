// Which accepted manifests some tree can match. `validate` compares parents by canonical path only,
// so it accepts a file below a directory that is listed under another spelling of its name; a file
// system that tells the two apart has no tree for it.
module ManifestTrees {
  import opened Text
  import opened Names
  import opened Manifest
  import opened FolderTree
  import opened FolderStaging

  // Every directory an entry lies in is listed, as a directory, under that very path.
  ghost predicate ParentsSpelled(es: seq<FolderEntry>) {
    forall i, a {:trigger IsAncestor(a, es[i].path)} :: 0 <= i < |es| && IsAncestor(a, es[i].path) ==>
      DirectoryListed(es, a)
  }

  ghost predicate DirectoryListed(es: seq<FolderEntry>, path: string) {
    exists j :: 0 <= j < |es| && es[j].path == path && es[j].kind.Directory?
  }

  ghost predicate IsContent(data: seq<byte>, e: FolderEntry, digest: Digest) {
    |data| == e.size && digest(data) == e.blake3
  }

  // There are bytes of the listed size and digest.
  ghost predicate HasContent(e: FolderEntry, digest: Digest) {
    e.kind.File? ==> exists data :: IsContent(data, e, digest)
  }

  ghost predicate HasContents(es: seq<FolderEntry>, digest: Digest) {
    forall i :: 0 <= i < |es| ==> HasContent(es[i], digest)
  }

  ghost predicate Matchable(m: FolderManifest, digest: Digest) {
    exists t: FsTree :: Matches(t, m, digest)
  }

  // Some tree matches an accepted manifest exactly when its parents are spelled as they are listed
  // and its files have contents.
  lemma MatchableIff(m: FolderManifest, canon: Canonical, digest: Digest)
    requires WellFormed(m, canon)
    ensures Matchable(m, digest) <==> ParentsSpelled(m.entries) && HasContents(m.entries, digest)
  {
    if Matchable(m, digest) {
      var t: FsTree :| Matches(t, m, digest);
      MatchedIsSpelled(t, m, canon, digest);
    }
    if ParentsSpelled(m.entries) && HasContents(m.entries, digest) {
      BuiltMatches(m, canon, digest);
    }
  }

  lemma MatchedIsSpelled(t: FsTree, m: FolderManifest, canon: Canonical, digest: Digest)
    requires WellFormed(m, canon) && Matches(t, m, digest)
    ensures ParentsSpelled(m.entries) && HasContents(m.entries, digest)
  {
    var es := m.entries;
    forall i, a | 0 <= i < |es| && IsAncestor(a, es[i].path) ensures DirectoryListed(es, a) {
      TreeParents(t, es[i].path);
      assert a in t && t[a].DirItem? && Listed(es, a);
      var j :| 0 <= j < |es| && es[j].path == a;
      assert ItemMatches(t[es[j].path], es[j], digest);
    }
    forall i | 0 <= i < |es| ensures HasContent(es[i], digest) {
      assert ItemMatches(t[es[i].path], es[i], digest);
      if es[i].kind.File? {
        assert IsContent(t[es[i].path].data, es[i], digest);
      }
    }
  }

  ghost function ItemFor(e: FolderEntry, digest: Digest): Item
    requires HasContent(e, digest)
  {
    if e.kind.Directory? then DirItem
    else
      var data :| IsContent(data, e, digest);
      FileItem(data)
  }

  // The tree an accepted manifest describes.
  ghost function Built(es: seq<FolderEntry>, digest: Digest): Tree
    requires forall p :: p in Index(es) ==> HasContent(Index(es)[p], digest)
  {
    map p | p in Index(es) :: ItemFor(Index(es)[p], digest)
  }

  lemma IndexHasContents(es: seq<FolderEntry>, digest: Digest)
    requires HasContents(es, digest)
    ensures forall p :: p in Index(es) ==> HasContent(Index(es)[p], digest)
  {
    forall p | p in Index(es) ensures HasContent(Index(es)[p], digest) {
      var i :| 0 <= i < |es| && es[i].path == p && es[i] == Index(es)[p];
      assert HasContent(es[i], digest);
    }
  }

  lemma BuiltAt(m: FolderManifest, canon: Canonical, digest: Digest, i: nat)
    requires WellFormed(m, canon) && HasContents(m.entries, digest) && i < |m.entries|
    ensures forall p :: p in Index(m.entries) ==> HasContent(Index(m.entries)[p], digest)
    ensures var e, t := m.entries[i], Built(m.entries, digest);
      && e.path in t && ItemMatches(t[e.path], e, digest) && (t[e.path].FileItem? ==> |t[e.path].data| <= U64_MAX)
  {
    IndexHasContents(m.entries, digest);
    IndexExact(m, canon, i);
    assert EntryOk(m.entries[i]);
  }

  lemma BuiltPlaced(m: FolderManifest, canon: Canonical, digest: Digest, i: nat)
    requires WellFormed(m, canon) && ParentsSpelled(m.entries) && HasContents(m.entries, digest) && i < |m.entries|
    ensures forall p :: p in Index(m.entries) ==> HasContent(Index(m.entries)[p], digest)
    ensures Placed(Built(m.entries, digest), m.entries[i].path)
  {
    var es, p := m.entries, m.entries[i].path;
    IndexHasContents(es, digest);
    assert ValidRelativePath(p) by {
      assert EntryOk(es[i]);
    }
    ValidWhole(p);
    if ParentDir(p) != "" {
      assert DirectoryListed(es, ParentDir(p)) by {
        assert IsAncestor(ParentDir(p), es[i].path);
      }
      var j :| 0 <= j < |es| && es[j].path == ParentDir(p) && es[j].kind.Directory?;
      BuiltAt(m, canon, digest, j);
    }
  }

  lemma BuiltMatches(m: FolderManifest, canon: Canonical, digest: Digest)
    requires WellFormed(m, canon) && ParentsSpelled(m.entries) && HasContents(m.entries, digest)
    ensures Matchable(m, digest)
  {
    var es := m.entries;
    IndexHasContents(es, digest);
    var t := Built(es, digest);
    forall p | p in t ensures Placed(t, p) && (t[p].FileItem? ==> |t[p].data| <= U64_MAX) && Listed(es, p) {
      var i :| 0 <= i < |es| && es[i].path == p;
      BuiltPlaced(m, canon, digest, i);
      BuiltAt(m, canon, digest, i);
    }
    AllPlaced(t);
    forall i | 0 <= i < |es| ensures es[i].path in t && ItemMatches(t[es[i].path], es[i], digest) {
      BuiltAt(m, canon, digest, i);
    }
    var u: FsTree := t;
    assert Matches(u, m, digest);
  }

  // ---------- an accepted manifest that nothing matches ----------

  function AsciiLower(s: string): string {
    seq(|s|, i requires 0 <= i < |s| => if 'A' <= s[i] <= 'Z' then s[i] + 32 as char else s[i])
  }

  function ZeroDigest(): (s: string)
    ensures ValidBlake3(s)
  {
    seq(64, i requires 0 <= i < 64 => '0')
  }

  // The directory is listed as "Q", its file as "q/b".
  function Respelled(): FolderManifest {
    FolderManifest(1, [FolderEntry("Q", Directory, 0, 0, ""), FolderEntry("q/b", File, 0, 0, ZeroDigest())])
  }

  lemma RespelledDirectory()
    ensures EntryOk(Respelled().entries[0]) && AsciiLower("Q") == "q"
  {
    assert Split("Q", '/') == ["Q"];
  }

  lemma RespelledComponents()
    ensures Split("q/b", '/') == ["q", "b"]
  {
    assert FirstIndexOf("q/b", '/') == 1 by {
      assert "q/b"[1..] == "/b";
    }
    assert "q/b"[..1] == "q" && "q/b"[2..] == "b";
    assert Split("b", '/') == ["b"];
  }

  lemma ShortComponent(c: char)
    requires c == 'q' || c == 'b'
    ensures ValidComponent([c])
  {
  }

  lemma RespelledFile()
    ensures ValidRelativePath("q/b") && AsciiLower("q/b") == "q/b"
  {
    RespelledComponents();
    ShortComponent('q');
    ShortComponent('b');
    assert Utf8Length("q/b") <= MAX_FOLDER_PATH_BYTES;
  }

  lemma RespelledAccepted()
    ensures WellFormed(Respelled(), AsciiLower)
  {
    var es := Respelled().entries;
    RespelledDirectory();
    RespelledFile();
    assert Less("Q", "q/b");
    assert AsciiLower(es[0].path) == "q" && AsciiLower(es[1].path) == "q/b";
    forall i, a | 0 <= i < |es| && IsAncestor(a, AsciiLower(es[i].path)) ensures HasDirectory(es, i, a, AsciiLower) {
      assert i == 1 && |a| == 1 && a == "q";
      assert es[0].kind.Directory? && AsciiLower(es[0].path) == a;
    }
    assert es[..1] == [es[0]] && es[..1][..0] == [];
  }

  // It is accepted, and no tree matches it, whatever the digest.
  lemma AcceptedUnmatched(digest: Digest)
    ensures WellFormed(Respelled(), AsciiLower) && !Matchable(Respelled(), digest)
  {
    RespelledAccepted();
    MatchableIff(Respelled(), AsciiLower, digest);
    var es := Respelled().entries;
    assert IsAncestor("q", es[1].path);
    if DirectoryListed(es, "q") {
      var j :| 0 <= j < |es| && es[j].path == "q" && es[j].kind.Directory?;
      assert es[0].path[0] != "q"[0];
    }
  }
}

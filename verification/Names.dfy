// File and path names: what a received name is turned into, and which names are accepted back.
module Names {
  import opened Text

  const MAX_FOLDER_PATH_BYTES: nat := 4096

  predicate ForbiddenChar(c: char) {
    c < ' ' || c == '<' || c == '>' || c == ':' || c == '"' || c == '|' || c == '?' || c == '*'
  }

  function AsciiUpper(s: string): (r: string)
    ensures |r| == |s|
    ensures forall i :: 0 <= i < |s| ==> r[i] == (if 'a' <= s[i] <= 'z' then s[i] - 32 as char else s[i])
  {
    seq(|s|, i requires 0 <= i < |s| => if 'a' <= s[i] <= 'z' then s[i] - 32 as char else s[i])
  }

  // Device names Windows reserves, with or without an extension.
  predicate WindowsReserved(component: string) {
    var upper := AsciiUpper(BeforeFirst(component, '.'));
    || upper == "CON" || upper == "PRN" || upper == "AUX" || upper == "NUL"
    || (|upper| == 4 && (upper[..3] == "COM" || upper[..3] == "LPT") && '1' <= upper[3] <= '9')
  }

  predicate PlainChar(c: char) {
    c != '/' && c != '\\' && !ForbiddenChar(c)
  }

  ghost predicate AllPlain(s: string) {
    forall i :: 0 <= i < |s| ==> PlainChar(s[i])
  }

  // ---------- safe_filename ----------

  function AfterLastSeparator(raw: string): (base: string)
    ensures '/' !in base && '\\' !in base
    ensures '/' !in raw && '\\' !in raw ==> base == raw
  {
    if raw == "" then ""
    else
      var last := raw[|raw| - 1];
      if last == '/' || last == '\\' then ""
      else
        assert raw == raw[..|raw| - 1] + [last];
        AfterLastSeparator(raw[..|raw| - 1]) + [last]
  }

  function Sanitize(s: string): (r: string)
    ensures |r| == |s|
    ensures forall i :: 0 <= i < |s| ==> r[i] == if ForbiddenChar(s[i]) then '_' else s[i]
  {
    seq(|s|, i requires 0 <= i < |s| => if ForbiddenChar(s[i]) then '_' else s[i])
  }

  function TrimEnd(s: string): (r: string)
    ensures r <= s
    ensures r != "" ==> r[|r| - 1] != '.' && r[|r| - 1] != ' '
    ensures s != "" && s[|s| - 1] != '.' && s[|s| - 1] != ' ' ==> r == s
  {
    if s != "" && (s[|s| - 1] == '.' || s[|s| - 1] == ' ') then TrimEnd(s[..|s| - 1]) else s
  }

  function AvoidReserved(trimmed: string): string {
    if trimmed == "" || trimmed == "." || trimmed == ".." then "unknown"
    else if WindowsReserved(trimmed) then "_" + trimmed
    else trimmed
  }

  function SafeFilename(raw: string): string {
    AvoidReserved(TrimEnd(Sanitize(AfterLastSeparator(raw))))
  }

  // The loop that replaces forbidden characters one by one.
  method MakeSafeFilename(raw: string) returns (name: string)
    ensures name == SafeFilename(raw)
  {
    var basename := AfterLastSeparator(raw);
    var safe := "";
    for i := 0 to |basename|
      invariant safe == Sanitize(basename)[..i]
    {
      safe := safe + [if ForbiddenChar(basename[i]) then '_' else basename[i]];
    }
    assert safe == Sanitize(basename);
    var trimmed := TrimEnd(safe);
    if trimmed == "" || trimmed == "." || trimmed == ".." {
      name := "unknown";
    } else if WindowsReserved(trimmed) {
      name := "_" + trimmed;
    } else {
      name := trimmed;
    }
  }

  // A name that every platform accepts as one plain path component.
  ghost predicate IsSafeName(name: string) {
    && name != ""
    && AllPlain(name)
    && name[|name| - 1] != '.' && name[|name| - 1] != ' '
    && !WindowsReserved(name)
  }

  // What `safe_filename` is left with after replacing and trimming.
  lemma TrimmedIsClean(base: string, trimmed: string)
    requires '/' !in base && '\\' !in base && trimmed == TrimEnd(Sanitize(base))
    ensures AllPlain(trimmed)
  {
    var safe := Sanitize(base);
    forall i | 0 <= i < |trimmed|
      ensures PlainChar(trimmed[i])
    {
      assert trimmed[i] == safe[i] && base[i] in base;
    }
  }

  lemma UnderscoreIsSafe(trimmed: string)
    requires AllPlain(trimmed) && trimmed != ""
    requires trimmed[|trimmed| - 1] != '.' && trimmed[|trimmed| - 1] != ' '
    ensures IsSafeName(['_'] + trimmed)
  {
    NotReserved(['_'] + trimmed, '_');
  }

  lemma AvoidReservedIsSafe(trimmed: string)
    requires AllPlain(trimmed)
    requires trimmed != "" ==> trimmed[|trimmed| - 1] != '.' && trimmed[|trimmed| - 1] != ' '
    ensures IsSafeName(AvoidReserved(trimmed))
  {
    WordIsSafe("unknown");
    if trimmed != "" {
      UnderscoreIsSafe(trimmed);
    }
  }

  lemma WordIsSafe(word: string)
    requires word != "" && word[0] == 'u' && forall i :: 0 <= i < |word| ==> 'a' <= word[i] <= 'z'
    ensures IsSafeName(word)
  {
    NotReserved(word, 'U');
  }

  lemma SafeFilenameIsSafe(raw: string)
    ensures IsSafeName(SafeFilename(raw))
  {
    var base := AfterLastSeparator(raw);
    var trimmed := TrimEnd(Sanitize(base));
    TrimmedIsClean(base, trimmed);
    AvoidReservedIsSafe(trimmed);
  }

  // Reserved names begin with one of five letters.
  lemma NotReserved(name: string, first: char)
    requires name != "" && name[0] != '.' && AsciiUpper(name)[0] == first && first !in {'C', 'P', 'A', 'N', 'L'}
    ensures !WindowsReserved(name)
  {
    var stem := BeforeFirst(name, '.');
    assert stem != "";
    assert AsciiUpper(stem)[0] == first;
  }

  // The safe names are exactly the fixed points, so cleaning a name twice changes nothing more.
  lemma SafeFilenameFixpoint(name: string)
    ensures SafeFilename(name) == name <==> IsSafeName(name)
  {
    SafeFilenameIsSafe(name);
    if IsSafeName(name) {
      assert Sanitize(AfterLastSeparator(name)) == name;
    }
  }

  lemma SafeFilenameIdempotent(raw: string)
    ensures SafeFilename(SafeFilename(raw)) == SafeFilename(raw)
  {
    SafeFilenameIsSafe(raw);
    SafeFilenameFixpoint(SafeFilename(raw));
  }

  // ---------- destination names ----------

  // `Path::file_name` gives the whole of `name` back exactly when this holds.
  predicate IsPlainComponent(name: string) {
    name != "" && '/' !in name && name != "." && name != ".."
  }

  predicate ValidDestinationName(name: string) {
    SafeFilename(name) == name && IsPlainComponent(name)
  }

  lemma ValidDestinationNameIff(name: string)
    ensures ValidDestinationName(name) <==> IsSafeName(name)
  {
    SafeFilenameFixpoint(name);
  }

  function SplitExtension(filename: string): (r: (string, string))
    ensures r.0 + r.1 == filename
    ensures r.1 != "" ==> r.0 != "" && r.1[0] == '.' && '.' !in r.1[1..]
    ensures r.1 == "" ==> '.' !in filename || (filename[0] == '.' && '.' !in filename[1..])
  {
    var index := LastIndexOf(filename, '.');
    if index > 0 then (filename[..index], filename[index..]) else (filename, "")
  }

  function NumberTag(index: nat): (tag: string)
    ensures tag != "" && tag[|tag| - 1] == ')'
    ensures '.' !in tag
  {
    " (" + Decimal(index) + ")"
  }

  // The name tried when `filename` and the candidates before this one are taken.
  function Candidate(filename: string, index: nat): string {
    if index < 2 then filename
    else
      var (stem, extension) := SplitExtension(filename);
      stem + NumberTag(index) + extension
  }

  lemma BeforeFirstUnique(s: string, c: char, p: string)
    requires p <= s && c !in p && (p == s || s[|p|] == c)
    ensures BeforeFirst(s, c) == p
  {
    var r := BeforeFirst(s, c);
    assert p == s[..|p|] && r == s[..|r|];
    var k := if |r| < |p| then |r| else |p|;
    assert k < |s| ==> s[k] == c || r == p;
  }

  lemma ClosingParenNotReserved(s: string)
    requires s != "" && s[|s| - 1] == ')' && '.' !in s
    ensures !WindowsReserved(s)
  {
    var upper := AsciiUpper(s);
    assert BeforeFirst(s, '.') == s && upper[|s| - 1] == ')';
  }

  lemma PlainConcat(a: string, b: string)
    ensures AllPlain(a + b) <==> AllPlain(a) && AllPlain(b)
  {
    assert forall i :: 0 <= i < |a| ==> (a + b)[i] == a[i];
    assert forall i :: 0 <= i < |b| ==> (a + b)[|a| + i] == b[i];
  }

  lemma TagIsPlain(index: nat)
    ensures AllPlain(NumberTag(index))
  {
    assert AllPlain(" (") && AllPlain(Decimal(index)) && AllPlain(")");
    PlainConcat(" (", Decimal(index));
    PlainConcat(" (" + Decimal(index), ")");
  }

  lemma CandidateIsPlain(filename: string, index: nat)
    requires AllPlain(filename) && index >= 2
    ensures AllPlain(Candidate(filename, index))
  {
    var (stem, extension) := SplitExtension(filename);
    PlainConcat(stem, extension);
    TagIsPlain(index);
    PlainConcat(stem, NumberTag(index));
    PlainConcat(stem + NumberTag(index), extension);
  }

  lemma CandidateIsSafe(filename: string, index: nat)
    requires IsSafeName(filename) && index >= 2
    ensures IsSafeName(Candidate(filename, index))
  {
    CandidateIsPlain(filename, index);
    CandidateNotReserved(filename, index);
    CandidateLast(filename, index);
  }

  lemma CandidateLast(filename: string, index: nat)
    requires filename != "" && index >= 2
    ensures var name := Candidate(filename, index);
      name != "" && (name[|name| - 1] == ')' || name[|name| - 1] == filename[|filename| - 1])
  {
  }

  // Every name the allocator can pick for a safe name is accepted when a commit or done record
  // naming it is read back.
  lemma CandidateIsValid(filename: string, index: nat)
    requires IsSafeName(filename)
    ensures ValidDestinationName(Candidate(filename, index))
  {
    if index >= 2 {
      CandidateIsSafe(filename, index);
    }
    ValidDestinationNameIff(Candidate(filename, index));
  }

  lemma CandidateNotReserved(filename: string, index: nat)
    requires IsSafeName(filename) && index >= 2
    ensures !WindowsReserved(Candidate(filename, index))
  {
    var (stem, extension) := SplitExtension(filename);
    var numbered := stem + NumberTag(index);
    var name := Candidate(filename, index);
    assert name == numbered + extension;
    if '.' in stem {
      var p := BeforeFirst(stem, '.');
      assert stem[|p|] == '.' && filename[..|p|] == p && name[..|p|] == p;
      BeforeFirstUnique(filename, '.', p);
      BeforeFirstUnique(name, '.', p);
    } else {
      assert '.' !in numbered;
      BeforeFirstUnique(name, '.', numbered);
      ClosingParenNotReserved(numbered);
    }
  }

  // Different indices give different names, so a taken name never blocks the next candidate.
  lemma CandidateLonger(filename: string, index: nat)
    requires index >= 2
    ensures |Candidate(filename, index)| > |filename|
  {
  }

  lemma CandidateInjective(filename: string, i: nat, j: nat)
    requires 2 <= i && 2 <= j && Candidate(filename, i) == Candidate(filename, j)
    ensures i == j
  {
    var (stem, extension) := SplitExtension(filename);
    var a, b := Candidate(filename, i), Candidate(filename, j);
    assert NumberTag(i) == a[|stem|..|a| - |extension|] == b[|stem|..|b| - |extension|] == NumberTag(j);
    TagInjective(i, j);
  }

  lemma TagInjective(i: nat, j: nat)
    requires NumberTag(i) == NumberTag(j)
    ensures i == j
  {
    assert Decimal(i) == NumberTag(i)[2..|NumberTag(i)| - 1];
    assert Decimal(j) == NumberTag(j)[2..|NumberTag(j)| - 1];
    DecimalInjective(i, j);
  }

  // ---------- paths inside a folder ----------

  function Utf8Length(s: string): nat {
    if s == "" then 0
    else
      var c := s[0] as int;
      (if c < 0x80 then 1 else if c < 0x800 then 2 else if c < 0x1_0000 then 3 else 4) + Utf8Length(s[1..])
  }

  predicate ValidComponent(component: string) {
    && component != "" && component != "." && component != ".."
    && component[|component| - 1] != '.' && component[|component| - 1] != ' '
    && (forall i :: 0 <= i < |component| ==> !ForbiddenChar(component[i]))
    && !WindowsReserved(component)
  }

  // What a path must satisfy to name an entry of a transferred folder.
  lemma {:induction false} Utf8AtLeast(s: string)
    ensures |s| <= Utf8Length(s)
  {
    if s != "" {
      Utf8AtLeast(s[1..]);
    }
  }

  predicate ValidRelativePath(path: string) {
    && path != "" && Utf8Length(path) <= MAX_FOLDER_PATH_BYTES
    && path[0] != '/' && path[|path| - 1] != '/'
    && '\\' !in path && '\0' !in path
    && (forall component :: component in Split(path, '/') ==> ValidComponent(component))
  }
}

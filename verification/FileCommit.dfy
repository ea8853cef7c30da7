// Committing a received file: name allocation, commit record, rename, done record.
module FileCommit {
  import opened Wrappers
  import opened Text
  import opened Names
  import opened FolderTree
  import opened Offers
  import opened Disk
  import opened FileTransfer

  // The name itself and its numbered candidates below `n` exist.
  ghost predicate TakenBelow(dest: Destinations, filename: string, n: nat) {
    filename in dest && forall j :: 2 <= j < n ==> Candidate(filename, j) in dest
  }

  lemma TakenNext(dest: Destinations, filename: string, n: nat)
    requires TakenBelow(dest, filename, n) && Candidate(filename, n) in dest
    ensures TakenBelow(dest, filename, n + 1)
  {
    forall j | 2 <= j < n + 1 ensures Candidate(filename, j) in dest {
      if j != n {
        assert 2 <= j < n;
      }
    }
  }

  // The first name, in candidate order, that does not exist.
  ghost predicate FirstFree(dest: Destinations, filename: string, name: string, index: nat) {
    && name == Candidate(filename, index) && name !in dest && (index == 0 || 2 <= index <= U32_MAX)
    && (index >= 2 ==> TakenBelow(dest, filename, index))
  }

  // Nobody else touches the names this transfer may be given.
  ghost predicate NamesKept(kept: set<string>, filename: string) {
    forall index {:trigger Candidate(filename, index)} :: 0 <= index <= U32_MAX ==> Candidate(filename, index) in kept
  }

  // Without a destination on record, the data lands at the first free name, and only a stop or
  // 2^32 taken names keep it from landing.
  ghost predicate Landed<T>(r: Result<T, CoreError>, commit: Option<CommitRecord>, dest: Destinations, filename: string,
                            name: string) {
    match r
    case Success(_) => commit.None? ==> exists index :: FirstFree(dest, filename, name, index)
    case Failure(error) =>
      error == Stopped || (error == NoFreeName && commit.None? && TakenBelow(dest, filename, U32_MAX + 1))
  }

  // With nobody else at them, the names free and taken are those free and taken before.
  lemma TakenBefore(a: Destinations, b: Destinations, kept: set<string>, filename: string, n: nat)
    requires NamesKept(kept, filename) && SameKept(a, b, kept) && TakenBelow(b, filename, n) && n <= U32_MAX + 1
    ensures TakenBelow(a, filename, n)
  {
    assert Candidate(filename, 0) in kept && SameAt(a, b, filename);
    forall j | 2 <= j < n ensures Candidate(filename, j) in a {
      assert Candidate(filename, j) in kept && SameAt(a, b, Candidate(filename, j));
    }
  }

  lemma LandedBefore<T>(r: Result<T, CoreError>, commit: Option<CommitRecord>, a: Destinations, b: Destinations,
                        kept: set<string>,
                        filename: string, name: string)
    requires SameKept(a, b, kept)
    ensures NamesKept(kept, filename) && Landed(r, commit, b, filename, name) ==> Landed(r, commit, a, filename, name)
  {
    if !(NamesKept(kept, filename) && Landed(r, commit, b, filename, name)) {
    } else if r.Success? && commit.None? {
      var index :| FirstFree(b, filename, name, index);
      assert SameAt(a, b, Candidate(filename, index));
      if index >= 2 {
        TakenBefore(a, b, kept, filename, index);
      }
      assert FirstFree(a, filename, name, index);
    } else if r == Failure(NoFreeName) {
      TakenBefore(a, b, kept, filename, U32_MAX + 1);
    }
  }

  // How many of the names this transfer may be given exist.
  ghost function NamesTaken(dest: Destinations, filename: string): nat {
    |Candidates(dest, filename)|
  }

  ghost function Candidates(dest: Destinations, filename: string): set<string> {
    set name | name in dest && exists index :: 0 <= index <= U32_MAX && name == Candidate(filename, index)
  }

  lemma SameCandidates(a: Destinations, b: Destinations, kept: set<string>, filename: string)
    requires SameKept(a, b, kept)
    ensures NamesKept(kept, filename) ==> Candidates(a, filename) == Candidates(b, filename)
  {
    if NamesKept(kept, filename) {
      forall name ensures name in Candidates(a, filename) <==> name in Candidates(b, filename) {
        if index :| 0 <= index <= U32_MAX && name == Candidate(filename, index) {
          assert SameAt(a, b, name);
        }
      }
    }
  }

  // Each name found taken is another one.
  lemma TakenCount(dest: Destinations, filename: string, n: nat)
    requires 2 <= n <= U32_MAX + 1 && TakenBelow(dest, filename, n)
    ensures n - 1 <= NamesTaken(dest, filename)
  {
    CandidatesCount(filename, n);
    forall name | name in FirstCandidates(filename, n) ensures name in Candidates(dest, filename) {
      var index := CandidateAt(filename, n, name);
    }
    SubsetSize(FirstCandidates(filename, n), Candidates(dest, filename));
  }

  function FirstCandidates(filename: string, n: nat): set<string> {
    if n <= 2 then {filename} else FirstCandidates(filename, n - 1) + {Candidate(filename, n - 1)}
  }

  lemma {:induction false} CandidateAt(filename: string, n: nat, name: string) returns (index: nat)
    requires n >= 2 && name in FirstCandidates(filename, n)
    ensures (index == 0 || 2 <= index < n) && name == Candidate(filename, index)
  {
    if n == 2 {
      index := 0;
    } else if name == Candidate(filename, n - 1) {
      index := n - 1;
    } else {
      index := CandidateAt(filename, n - 1, name);
    }
  }

  lemma {:induction false} CandidatesCount(filename: string, n: nat)
    requires n >= 2
    ensures |FirstCandidates(filename, n)| == n - 1
  {
    if n > 2 {
      CandidatesCount(filename, n - 1);
      NewCandidate(filename, n - 1);
    }
  }

  lemma NewCandidate(filename: string, n: nat)
    requires n >= 2
    ensures Candidate(filename, n) !in FirstCandidates(filename, n)
  {
    if Candidate(filename, n) in FirstCandidates(filename, n) {
      var index := CandidateAt(filename, n, Candidate(filename, n));
      if index == 0 {
        CandidateLonger(filename, n);
      } else {
        CandidateInjective(filename, index, n);
      }
    }
  }

  // The first name, in candidate order, that is free when it is tried.
  method UniqueDestination(disk: Workspace, filename: string) returns (r: Result<string, CoreError>, ghost index: nat)
    requires IsSafeName(filename)
    modifies disk`dest, disk`budget, disk`others, disk`history
    ensures r == Failure(Stopped) ==> disk.budget == 0
    ensures NamesKept(disk.kept, filename) ==>
      old(disk.budget) <= disk.budget + NamesTaken(old(disk.dest), filename) + 1
    ensures Undisturbed(disk)
    ensures r.Success? ==>
      && index <= U32_MAX && r.value == Candidate(filename, index) && r.value !in disk.dest
      && ValidDestinationName(r.value)
    ensures r.Success? && NamesKept(disk.kept, filename) ==>
      r.value in disk.kept && FirstFree(old(disk.dest), filename, r.value, index)
    ensures r.Failure? ==> r.error == Stopped || r.error == NoFreeName
    ensures r == Failure(NoFreeName) && NamesKept(disk.kept, filename) ==>
      TakenBelow(old(disk.dest), filename, U32_MAX + 1)
    ensures filename in disk.kept && old(disk.budget) > 0 && filename !in old(disk.dest) ==>
      r == Success(filename) && disk.budget == old(disk.budget) - 1
  {
    index := 0;
    var first := disk.Call(); // try_exists
    assert NamesKept(disk.kept, filename) ==> Candidate(filename, 0) in disk.kept;
    if first.Failure? {
      r := Failure(first.error);
    } else if filename !in disk.dest {
      CandidateIsValid(filename, 0);
      r := Success(filename);
    } else {
      r, index := UniqueNumbered(disk, filename, old(disk.dest));
    }
  }

  // The numbered candidates, once the name itself is known to exist.
  method UniqueNumbered(disk: Workspace, filename: string, ghost before: Destinations)
    returns (r: Result<string, CoreError>, index: nat)
    requires IsSafeName(filename) && filename in disk.dest && SameKept(before, disk.dest, disk.kept)
    modifies disk`dest, disk`budget, disk`others, disk`history
    ensures r == Failure(Stopped) ==> disk.budget == 0
    ensures NamesKept(disk.kept, filename) ==> old(disk.budget) <= disk.budget + NamesTaken(before, filename) + 0
    ensures Undisturbed(disk)
    ensures r.Success? ==>
      && index <= U32_MAX && r.value == Candidate(filename, index) && r.value !in disk.dest
      && ValidDestinationName(r.value)
    ensures r.Success? && NamesKept(disk.kept, filename) ==>
      r.value in disk.kept && FirstFree(before, filename, r.value, index)
    ensures r.Failure? ==> r.error == Stopped || r.error == NoFreeName
    ensures r == Failure(NoFreeName) && NamesKept(disk.kept, filename) ==> TakenBelow(before, filename, U32_MAX + 1)
  {
    index := 2;
    r := Failure(NoFreeName);
    assert NamesKept(disk.kept, filename) ==> Candidate(filename, 0) in disk.kept;
    while index <= U32_MAX && r == Failure(NoFreeName)
      invariant 2 <= index <= U32_MAX + 1
      invariant Undisturbed(disk) && SameKept(before, disk.dest, disk.kept)
      invariant old(disk.budget) <= disk.budget + index - 2 + (if r.Success? then 1 else 0)
      invariant NamesKept(disk.kept, filename) ==> TakenBelow(before, filename, index)
      invariant r.Failure? ==> r.error == NoFreeName || (r.error == Stopped && disk.budget == 0)
      invariant r.Success? ==> index <= U32_MAX && r.value == Candidate(filename, index) && r.value !in disk.dest
      decreases U32_MAX + 1 - index, r == Failure(NoFreeName)
    {
      var next := disk.Call(); // try_exists
      var candidate := Candidate(filename, index);
      if next.Failure? {
        r := Failure(next.error);
      } else if candidate !in disk.dest {
        r := Success(candidate);
      } else {
        if NamesKept(disk.kept, filename) {
          assert SameAt(before, disk.dest, candidate);
          TakenNext(before, filename, index);
        }
        index := index + 1;
      }
    }
    CandidateIsValid(filename, index);
    if NamesKept(disk.kept, filename) {
      TakenCount(before, filename, index);
    }
  }

  // The part, renamed unless something is at `name` already; `moved` is what was.
  method RenamePart(disk: Workspace, name: string) returns (r: Result<(), CoreError>, ghost moved: Option<Node>)
    requires disk.own.part.Some?
    modifies disk`dest, disk`budget, disk`others, disk`history, disk`own, disk`created
    ensures r == Failure(Stopped) ==> disk.budget == 0
    ensures old(disk.budget) <= disk.budget + 2
    ensures old(disk.budget) == 0 ==> r == Failure(Stopped)
    ensures old(disk.history) <= disk.history && MovedTo(old(disk.dest), disk.dest, disk.kept, name, moved)
    ensures disk.created == CreatedBy(old(disk.created), name, moved)
    ensures moved.None? ==> disk.own == old(disk.own)
    ensures moved.Some? ==>
      && r.Success? && moved.value == RegularFile(old(disk.own.part).value.data)
      && disk.own == old(disk.own).(part := None)
    ensures r.Success? && name in disk.kept ==> (moved.None? <==> name in old(disk.dest))
    ensures r.Failure? ==> r.error == Stopped || (r.error == RenameFailed && name !in disk.kept)
  {
    moved := None;
    ghost var before := disk.dest;
    r := disk.Call(); // try_exists
    if r.Success? && name !in disk.dest {
      r := disk.Call(); // rename
      assert name in disk.kept ==> SameAt(before, disk.dest, name);
      if r.Success? && name in disk.dest && disk.dest[name].Directory? {
        r := Failure(RenameFailed);
      } else if r.Success? {
        moved := Some(RegularFile(disk.own.part.value.data));
        disk.dest := disk.dest[name := RegularFile(disk.own.part.value.data)];
        disk.own := disk.own.(part := None);
        disk.created := disk.created + [name];
      }
    }
  }

  // ---------- finalize ----------

  // The states a failed digest check passes through.
  ghost predicate DiscardReaches(before: Sidecars, after: Sidecars) {
    || after == before
    || after == before.(part := None)
    || after == before.(part := None, metadata := None)
    || after == before.(part := None, metadata := None, commit := None)
  }

  // The states after the commit record is chosen, with the part still there or renamed.
  ghost predicate CommitReaches(before: Sidecars, expected: StoredOffer, name: string, after: Sidecars) {
    var committed := before.(commit := Some(CommitFor(expected, name)));
    var renamed := committed.(part := None);
    || after == before
    || after == committed
    || after == renamed
    || ConcludeReaches(committed, expected, name, after)
    || ConcludeReaches(renamed, expected, name, after)
  }

  ghost predicate ConcludeReaches(before: Sidecars, expected: StoredOffer, name: string, after: Sidecars) {
    var recorded := before.(done := Some(DoneFor(expected, name)));
    || after == before
    || after == recorded
    || after == recorded.(metadata := None)
    || after == recorded.(metadata := None, commit := None)
  }

  // Length and digest of the part; a wrong digest discards everything received.
  method CheckPart(disk: Workspace, expected: StoredOffer) returns (r: Result<(), CoreError>)
    requires disk.own.part.Some?
    modifies disk`dest, disk`budget, disk`others, disk`history, disk`own
    ensures r == Failure(Stopped) ==> disk.budget == 0
    ensures old(disk.budget) <= disk.budget + 5
    ensures Undisturbed(disk)
    ensures r.Success? ==> disk.own == old(disk.own)
    ensures DiscardReaches(old(disk.own), disk.own)
    ensures var data := old(disk.own.part).value.data;
      && (r.Success? ==> |data| == expected.size && disk.digest(data) == expected.blake3)
      && (|data| != expected.size || disk.digest(data) == expected.blake3 ==> disk.own == old(disk.own))
      && (|data| == expected.size && disk.digest(data) == expected.blake3 ==> r.Success? || r == Failure(Stopped))
      && (r == Failure(DigestMismatch) ==> disk.own == old(disk.own).(part := None, metadata := None, commit := None))
  {
    var _ :- disk.Call(); // metadata of the part file
    if |disk.own.part.value.data| != expected.size {
      return Failure(ShortPart);
    }
    var _ :- disk.Call(); // read and hash
    if disk.digest(disk.own.part.value.data) != expected.blake3 {
      var partGone := disk.own.(part := None);
      var metadataGone := partGone.(metadata := None);
      var commitGone := metadataGone.(commit := None);
      var _ :- disk.Update([partGone, metadataGone, commitGone]);
      return Failure(DigestMismatch);
    }
    return Success(());
  }

  lemma StaysFree(own: Sidecars, a: Destinations, b: Destinations, kept: set<string>, expected: StoredOffer)
    requires SameKept(a, b, kept)
    ensures FreeToCommit(own, a, kept, expected) ==> FreeToCommit(own, b, kept, expected)
  {
    assert own.commit.Some? && own.commit.value.destination in kept ==> SameAt(a, b, own.commit.value.destination);
  }

  lemma StaysAway(own: Sidecars, a: Destinations, b: Destinations, kept: set<string>, expected: StoredOffer)
    requires SameKept(a, b, kept)
    ensures NotYetThere(own, a, kept, expected) ==> NotYetThere(own, b, kept, expected)
  {
    StaysFree(own, a, b, kept, expected);
    assert own.done.Some? && own.done.value.destination in kept ==> SameAt(a, b, own.done.value.destination);
  }

  // A fresh destination, recorded before anything is renamed to it.
  method RecordFreshDestination(disk: Workspace, expected: StoredOffer) returns (r: Result<(), CoreError>, name: string)
    requires IsSafeName(expected.filename)
    modifies disk`dest, disk`budget, disk`others, disk`history, disk`own
    ensures r == Failure(Stopped) ==> disk.budget == 0
    ensures NamesKept(disk.kept, expected.filename) ==>
      old(disk.budget) <= disk.budget + NamesTaken(old(disk.dest), expected.filename) + 2
    ensures Undisturbed(disk)
    ensures disk.own == old(disk.own) || disk.own == old(disk.own).(commit := Some(CommitFor(expected, name)))
    ensures r.Success? || disk.own != old(disk.own) ==> ValidDestinationName(name)
    ensures r.Success? ==> disk.own.commit == Some(CommitFor(expected, name))
    ensures r.Success? && name in disk.kept ==> name !in old(disk.dest)
    ensures r.Failure? ==> r.error == Stopped || r.error == NoFreeName
    ensures expected.filename in disk.kept && expected.filename !in old(disk.dest) && old(disk.budget) == 2 ==>
      r.Success? && name == expected.filename && disk.budget == 0
    ensures NamesKept(disk.kept, expected.filename) ==>
      && Landed(r, None, old(disk.dest), expected.filename, name)
      && (disk.own != old(disk.own) ==> name in disk.kept && name !in disk.dest)
  {
    name := "";
    ghost var index;
    var free;
    free, index := UniqueDestination(disk, expected.filename);
    if free.Failure? {
      return Failure(free.error), name;
    }
    name := free.value;
    r := disk.Update([disk.own.(commit := Some(CommitRecord(expected, name, None)))]);
  }

  // The recorded destination, or a fresh one recorded now.
  method ChooseDestination(disk: Workspace, expected: StoredOffer) returns (r: Result<(), CoreError>, name: string)
    requires RecordsOk(disk.own) && IsSafeName(expected.filename) && expected.kind.FileKind?
    modifies disk`dest, disk`budget, disk`others, disk`history, disk`own
    ensures r == Failure(Stopped) ==> disk.budget == 0
    ensures NamesKept(disk.kept, expected.filename) ==>
      old(disk.budget) <= disk.budget + NamesTaken(old(disk.dest), expected.filename) + 3
    ensures Undisturbed(disk)
    ensures disk.own == old(disk.own)
         || (old(disk.own.commit).None? && disk.own == old(disk.own).(commit := Some(CommitFor(expected, name))))
    ensures r.Success? || disk.own != old(disk.own) ==> ValidDestinationName(name)
    ensures r.Success? ==> disk.own.commit == Some(CommitFor(expected, name))
    ensures expected.filename in disk.kept && expected.filename !in old(disk.dest) && old(disk.budget) == 3
            && old(disk.own.commit).None? ==>
      r.Success? && name == expected.filename && disk.budget == 0
    ensures r.Success? && name in disk.kept && old(FreeToCommit(disk.own, disk.dest, disk.kept, expected)) ==>
      name !in old(disk.dest)
    ensures NamesKept(disk.kept, expected.filename) && old(FreeToCommit(disk.own, disk.dest, disk.kept, expected)) ==>
      && Landed(r, old(disk.own.commit), old(disk.dest), expected.filename, name)
      && FreeToCommit(disk.own, disk.dest, disk.kept, expected)
  {
    name := "";
    ghost var before := disk.dest;
    r := disk.Call(); // read the commit record
    StaysFree(disk.own, before, disk.dest, disk.kept, expected);
    if r.Failure? {
    } else if disk.own.commit.None? {
      ghost var called := disk.dest;
      r, name := RecordFreshDestination(disk, expected);
      LandedBefore(r, None, before, called, disk.kept, expected.filename, name);
      SameCandidates(before, called, disk.kept, expected.filename);
    } else if disk.own.commit.value.offer != expected {
      r := Failure(Reused);
    } else if !ValidDestinationName(disk.own.commit.value.destination) {
      r := Failure(BadDestination);
    } else {
      name := disk.own.commit.value.destination;
    }
  }

  // The destination check, the times, the done record and the clean-up.
  method Conclude(disk: Workspace, expected: StoredOffer, name: string)
    returns (r: Result<CompletedTransfer, CoreError>)
    modifies disk`dest, disk`budget, disk`others, disk`history, disk`own
    ensures r == Failure(Stopped) ==> disk.budget == 0
    ensures old(disk.budget) <= disk.budget + 6
    ensures Undisturbed(disk)
    ensures ConcludeReaches(old(disk.own), expected, name, disk.own)
    ensures r.Success? ==>
      && r.value == CompletedTransfer(ReceiptOf(expected), name)
      && CompleteOk(disk.own, disk.history, |old(disk.history)|, disk.digest, expected, r.value)
      && (name in disk.kept ==> FileAt(disk.dest, name, expected.size, expected.blake3, disk.digest))
      && disk.own == old(disk.own).(done := Some(DoneFor(expected, name)), metadata := None, commit := None)
    ensures name in disk.kept && FileAt(old(disk.dest), name, expected.size, expected.blake3, disk.digest) ==>
      r.Success? || r == Failure(Stopped)
  {
    var _ :- EnsureFileDestination(disk, name, expected.size, expected.blake3);
    ghost var checked := disk.history;
    var recorded := disk.own.(done := Some(DoneRecord(expected, name, ReceiptOf(expected), None)));
    var metadataGone := recorded.(metadata := None);
    var commitGone := metadataGone.(commit := None);
    // set the modification time, write the done record, remove the metadata, remove the commit record
    var _ :- disk.Update([disk.own, recorded, metadataGone, commitGone]);
    FileCheckedLater(checked, disk.history, |old(disk.history)|, |old(disk.history)|, expected, name, disk.digest);
    return Success(CompletedTransfer(ReceiptOf(expected), name));
  }

  // What was renamed is a file of the offered size and digest.
  ghost predicate AsOffered(node: Node, expected: StoredOffer, digest: Digest) {
    node.RegularFile? && |node.data| == expected.size && digest(node.data) == expected.blake3
  }

  method Finalize(disk: Workspace, expected: StoredOffer)
    returns (r: Result<CompletedTransfer, CoreError>, name: string, ghost moved: Option<Node>)
    requires RecordsOk(disk.own) && disk.own.done.None? && disk.own.part.Some?
    requires IsSafeName(expected.filename) && expected.kind.FileKind?
    modifies disk`dest, disk`budget, disk`others, disk`history, disk`own, disk`created
    ensures r == Failure(Stopped) ==> disk.budget == 0
    ensures NamesKept(disk.kept, expected.filename) ==>
      old(disk.budget) <= disk.budget + NamesTaken(old(disk.dest), expected.filename) + 16
    ensures old(disk.history) <= disk.history && MovedTo(old(disk.dest), disk.dest, disk.kept, name, moved)
    ensures disk.created == CreatedBy(old(disk.created), name, moved)
    ensures DiscardReaches(old(disk.own), disk.own)
            || (ValidDestinationName(name) && CommitReaches(old(disk.own), expected, name, disk.own))
    ensures moved.Some? ==>
      && moved.value == RegularFile(old(disk.own.part).value.data) && AsOffered(moved.value, expected, disk.digest)
      && CommitRecorded(disk.own, expected, name) && (name in disk.kept ==> r.Success? || r == Failure(Stopped))
    ensures r.Success? ==>
      && r.value == CompletedTransfer(ReceiptOf(expected), name)
      && CompleteOk(disk.own, disk.history, |old(disk.history)|, disk.digest, expected, r.value)
      && (name in disk.kept ==> FileAt(disk.dest, name, expected.size, expected.blake3, disk.digest))
    // Until it is renamed, no other destination is recorded and the recorded one stays free.
    ensures NamesKept(disk.kept, expected.filename) && old(FreeToCommit(disk.own, disk.dest, disk.kept, expected)) ==>
      if moved.None? then NotYetThere(disk.own, disk.dest, disk.kept, expected) else name in disk.kept
    // Nothing on record is lost but with a part of the wrong digest.
    ensures NamesKept(disk.kept, expected.filename) && old(FreeToCommit(disk.own, disk.dest, disk.kept, expected))
            && moved.None?
            && old(|disk.own.part.value.data| != expected.size
                   || disk.digest(disk.own.part.value.data) == expected.blake3) ==>
      RecordsStay(old(disk.own), disk.own)
    // Nothing but a stop, or 2^32 taken names, keeps a good part from its destination.
    ensures NamesKept(disk.kept, expected.filename) && old(FreeToCommit(disk.own, disk.dest, disk.kept, expected))
            && old(|disk.own.part.value.data| == expected.size
                   && disk.digest(disk.own.part.value.data) == expected.blake3) ==>
      && Landed(r, old(disk.own.commit), old(disk.dest), expected.filename, name)
      && (r.Success? ==> moved.Some?)
  {
    name, moved := "", None;
    ghost var before, dest := disk.own, disk.dest;
    var checked := CheckPart(disk, expected);
    StaysFree(before, dest, disk.dest, disk.kept, expected);
    if checked.Failure? {
      r := Failure(checked.error);
    } else {
      ghost var checkedDest := disk.dest;
      ghost var from := |disk.history|;
      r, name, moved := CommitChecked(disk, expected);
      MovedOn(dest, checkedDest, disk.dest, disk.kept, name, moved);
      FileCheckedLater(disk.history, disk.history, from, |old(disk.history)|, expected, name, disk.digest);
      LandedBefore(r, before.commit, dest, checkedDest, disk.kept, expected.filename, name);
      SameCandidates(dest, checkedDest, disk.kept, expected.filename);
    }
  }

  // `finalize` once the part is known to be good.
  method CommitChecked(disk: Workspace, expected: StoredOffer)
    returns (r: Result<CompletedTransfer, CoreError>, name: string, ghost moved: Option<Node>)
    requires RecordsOk(disk.own) && disk.own.done.None? && disk.own.part.Some?
    requires |disk.own.part.value.data| == expected.size && disk.digest(disk.own.part.value.data) == expected.blake3
    requires IsSafeName(expected.filename) && expected.kind.FileKind?
    modifies disk`dest, disk`budget, disk`others, disk`history, disk`own, disk`created
    ensures r == Failure(Stopped) ==> disk.budget == 0
    ensures NamesKept(disk.kept, expected.filename) ==>
      old(disk.budget) <= disk.budget + NamesTaken(old(disk.dest), expected.filename) + 11
    ensures expected.filename in disk.kept && expected.filename !in old(disk.dest) && old(disk.budget) == 3
            && old(disk.own.commit).None? ==>
      && r == Failure(Stopped) && moved.None?
      && disk.own == old(disk.own).(commit := Some(CommitFor(expected, expected.filename)))
    ensures old(disk.history) <= disk.history && MovedTo(old(disk.dest), disk.dest, disk.kept, name, moved)
    ensures disk.created == CreatedBy(old(disk.created), name, moved)
    ensures disk.own == old(disk.own)
            || (ValidDestinationName(name) && CommitReaches(old(disk.own), expected, name, disk.own))
    ensures moved.Some? ==>
      && moved.value == RegularFile(old(disk.own.part).value.data) && AsOffered(moved.value, expected, disk.digest)
      && CommitRecorded(disk.own, expected, name) && (name in disk.kept ==> r.Success? || r == Failure(Stopped))
    ensures r.Success? ==>
      && r.value == CompletedTransfer(ReceiptOf(expected), name)
      && CompleteOk(disk.own, disk.history, |old(disk.history)|, disk.digest, expected, r.value)
      && (name in disk.kept ==> FileAt(disk.dest, name, expected.size, expected.blake3, disk.digest))
    ensures NamesKept(disk.kept, expected.filename) && old(FreeToCommit(disk.own, disk.dest, disk.kept, expected)) ==>
      if moved.None? then NotYetThere(disk.own, disk.dest, disk.kept, expected) else name in disk.kept
    ensures NamesKept(disk.kept, expected.filename) && old(FreeToCommit(disk.own, disk.dest, disk.kept, expected))
            && moved.None? ==>
      RecordsStay(old(disk.own), disk.own)
    ensures NamesKept(disk.kept, expected.filename) && old(FreeToCommit(disk.own, disk.dest, disk.kept, expected)) ==>
      && Landed(r, old(disk.own.commit), old(disk.dest), expected.filename, name)
      && (r.Success? ==> moved.Some?)
  {
    moved := None;
    ghost var dest, history := disk.dest, disk.history;
    var chosen;
    chosen, name := ChooseDestination(disk, expected);
    ghost var chosenDest, chosenHistory := disk.dest, disk.history;
    if chosen.Failure? {
      r := Failure(chosen.error);
    } else {
      r, moved := RenameAndConclude(disk, expected, name);
      HistoryOn(history, chosenHistory, disk.history);
      FileCheckedLater(disk.history, disk.history, |chosenHistory|, |history|, expected, name, disk.digest);
      MovedOn(dest, chosenDest, disk.dest, disk.kept, name, moved);
    }
  }

  method RenameAndConclude(disk: Workspace, expected: StoredOffer, name: string)
    returns (r: Result<CompletedTransfer, CoreError>, ghost moved: Option<Node>)
    requires disk.own.done.None? && disk.own.part.Some? && disk.own.commit == Some(CommitFor(expected, name))
    requires |disk.own.part.value.data| == expected.size && disk.digest(disk.own.part.value.data) == expected.blake3
    modifies disk`dest, disk`budget, disk`others, disk`history, disk`own, disk`created
    ensures r == Failure(Stopped) ==> disk.budget == 0
    ensures old(disk.budget) <= disk.budget + 8
    ensures old(disk.budget) == 0 ==> r == Failure(Stopped) && moved.None? && disk.own == old(disk.own)
    ensures old(disk.history) <= disk.history && MovedTo(old(disk.dest), disk.dest, disk.kept, name, moved)
    ensures disk.created == CreatedBy(old(disk.created), name, moved)
    ensures ConcludeReaches(old(disk.own), expected, name, disk.own)
         || ConcludeReaches(old(disk.own).(part := None), expected, name, disk.own)
    ensures moved.Some? ==>
      && moved.value == RegularFile(old(disk.own.part).value.data) && AsOffered(moved.value, expected, disk.digest)
      && CommitRecorded(disk.own, expected, name) && (name in disk.kept ==> r.Success? || r == Failure(Stopped))
    ensures r.Success? ==>
      && r.value == CompletedTransfer(ReceiptOf(expected), name)
      && CompleteOk(disk.own, disk.history, |old(disk.history)|, disk.digest, expected, r.value)
      && (name in disk.kept ==> FileAt(disk.dest, name, expected.size, expected.blake3, disk.digest))
    ensures name in disk.kept && name !in old(disk.dest) && moved.None? ==>
      disk.own == old(disk.own) && name !in disk.dest
    ensures name in disk.kept && name !in old(disk.dest) ==>
      && (r.Success? || r == Failure(Stopped))
      && (r.Success? ==> moved.Some?)
  {
    var renamed;
    renamed, moved := RenamePart(disk, name);
    if renamed.Failure? {
      r := Failure(renamed.error);
    } else {
      ghost var from := |disk.history|;
      ghost var before, renamedDest := old(disk.dest), disk.dest;
      r := Conclude(disk, expected, name);
      MovedStays(before, renamedDest, disk.dest, disk.kept, name, moved);
      FileCheckedLater(disk.history, disk.history, from, |old(disk.history)|, expected, name, disk.digest);
    }
  }

  // A process that makes that many calls stops with the destination on record and nothing there: the
  // name is not held for it.
  method StopAfterCommit(disk: Workspace, expected: StoredOffer) returns (r: Result<CompletedTransfer, CoreError>)
    requires RecordsOk(disk.own) && disk.own.done.None? && disk.own.commit.None? && disk.own.part.Some?
    requires |disk.own.part.value.data| == expected.size && disk.digest(disk.own.part.value.data) == expected.blake3
    requires IsSafeName(expected.filename) && expected.kind.FileKind?
    requires expected.filename in disk.kept && expected.filename !in disk.dest
    modifies disk`dest, disk`budget, disk`others, disk`history, disk`own, disk`created
    ensures r == Failure(Stopped) && disk.created == old(disk.created) && SameKept(old(disk.dest), disk.dest, disk.kept)
    ensures disk.own == old(disk.own).(commit := Some(CommitFor(expected, expected.filename)))
  {
    disk.budget := 3;
    var name;
    ghost var moved;
    r, name, moved := CommitChecked(disk, expected);
  }
}

// The commit lock of a store, over every interleaving of the transfers that finalize in it: from the
// commit record to the done record, one at a time. Where a transfer stands is lost when it stops; its
// commit record is not.
module CommitLock {
  import opened Wrappers
  import opened Text
  import opened Names

  // Where a transfer is in `finalize` or `finalize_folder`, once it has asked for the lock.
  datatype Phase =
    | Outside
    | Reading
    | Trying(index: nat)
    | Recording(name: string)
    | Checking(name: string)
    | Renaming(name: string)
    | Ending(name: string)

  // Whose data a destination holds.
  datatype Owner = Transfer(id: nat) | Outsider

  datatype Store = Store(phases: map<nat, Phase>, records: map<nat, string>, dest: map<string, Owner>)

  // A transfer asks for the lock, makes its next call, is stopped or gives up, or loses its commit
  // record to recovery, a wrong digest or pruning; and anybody else creates or removes a destination.
  datatype Step =
    | Enter(id: nat)
    | Go(id: nat)
    | Leave(id: nat)
    | Forget(id: nat)
    | Create(name: string)
    | Remove(name: string)

  function PhaseOf(s: Store, id: nat): Phase {
    if id in s.phases then s.phases[id] else Outside
  }

  predicate LockHeld(s: Store) {
    exists id :: id in s.phases && !s.phases[id].Outside?
  }

  function At(s: Store, id: nat, phase: Phase): Store {
    s.(phases := s.phases[id := phase])
  }

  // The next candidate after one that exists; none once the numbers are used up.
  function AfterTaken(index: nat): Phase {
    if index == 0 then Trying(2) else if index < U32_MAX then Trying(index + 1) else Outside
  }

  // The next call of a transfer that holds the lock.
  function Next(s: Store, id: nat, filename: string): Store {
    match PhaseOf(s, id)
    case Outside => s
    case Reading => At(s, id, if id in s.records then Checking(s.records[id]) else Trying(0))
    case Trying(index) =>
      var name := Candidate(filename, index);
      At(s, id, if name in s.dest then AfterTaken(index) else Recording(name))
    case Recording(name) => At(s, id, Checking(name)).(records := s.records[id := name])
    case Checking(name) => At(s, id, if name in s.dest then Ending(name) else Renaming(name))
    case Renaming(name) => At(s, id, Ending(name)).(dest := s.dest[name := Transfer(id)])
    case Ending(name) => At(s, id, Outside).(records := s.records - {id})
  }

  // One step; `locked` says that the lock is taken. XX
  function Apply(s: Store, step: Step, filenames: nat -> string, locked: bool): Option<Store> {
    match step
    case Enter(id) => if PhaseOf(s, id).Outside? && !(locked && LockHeld(s)) then Some(At(s, id, Reading)) else None
    case Go(id) => if PhaseOf(s, id).Outside? then None else Some(Next(s, id, filenames(id)))
    case Leave(id) => Some(At(s, id, Outside))
    case Forget(id) => if PhaseOf(s, id).Outside? then Some(s.(records := s.records - {id})) else None
    case Create(name) => Some(s.(dest := s.dest[name := Outsider]))
    case Remove(name) => Some(s.(dest := s.dest - {name}))
  }

  function Run(s: Store, steps: seq<Step>, filenames: nat -> string, locked: bool): Option<Store>
    decreases |steps|
  {
    if steps == [] then Some(s)
    else
      var before := Run(s, steps[..|steps| - 1], filenames, locked);
      if before.None? then None else Apply(before.value, steps[|steps| - 1], filenames, locked)
  }

  const EMPTY: Store := Store(map[], map[], map[])

  // At most one transfer is inside, and where it is about to rename there is nothing, or something
  // that no transfer put there.
  ghost predicate Ok(s: Store) {
    && (forall a, b :: a in s.phases && b in s.phases && !s.phases[a].Outside? && !s.phases[b].Outside? ==> a == b)
    && (forall id :: id in s.phases && s.phases[id].Renaming? && s.phases[id].name in s.dest ==>
      s.dest[s.phases[id].name].Outsider?)
  }

  // Whoever is inside is alone.
  lemma MovedOk(s: Store, id: nat, phase: Phase)
    requires Ok(s) && !PhaseOf(s, id).Outside? && (phase.Renaming? ==> phase.name !in s.dest)
    ensures Ok(At(s, id, phase))
  {
  }

  lemma EnteredOk(s: Store, id: nat)
    requires Ok(s) && !LockHeld(s)
    ensures Ok(At(s, id, Reading))
  {
    forall a | a in s.phases ensures s.phases[a].Outside? {
    }
  }

  lemma RenamedOk(s: Store, id: nat, name: string)
    requires Ok(s) && PhaseOf(s, id) == Renaming(name)
    ensures Ok(At(s, id, Ending(name)).(dest := s.dest[name := Transfer(id)]))
  {
  }

  lemma GoOk(s: Store, id: nat, filename: string)
    requires Ok(s)
    ensures Ok(Next(s, id, filename))
  {
    match PhaseOf(s, id)
    case Outside =>
    case Renaming(name) => RenamedOk(s, id, name);
    case _ =>
      var phase := PhaseOf(Next(s, id, filename), id);
      MovedOk(s, id, phase);
      assert Next(s, id, filename) == At(s, id, phase).(records := Next(s, id, filename).records);
  }

  lemma StepOk(s: Store, step: Step, filenames: nat -> string)
    requires Ok(s) && Apply(s, step, filenames, true).Some?
    ensures Ok(Apply(s, step, filenames, true).value)
  {
    match step
    case Enter(id) => EnteredOk(s, id);
    case Go(id) => GoOk(s, id, filenames(id));
    case _ =>
  }

  lemma {:induction false} AlwaysOk(s: Store, steps: seq<Step>, filenames: nat -> string)
    requires Ok(s) && Run(s, steps, filenames, true).Some?
    ensures Ok(Run(s, steps, filenames, true).value)
  {
    if steps != [] {
      AlwaysOk(s, steps[..|steps| - 1], filenames);
      StepOk(Run(s, steps[..|steps| - 1], filenames, true).value, steps[|steps| - 1], filenames);
    }
  }

  // Anybody else leaves the name alone.
  predicate LeavesAlone(step: Step, name: string) {
    match step
    case Create(other) => other != name
    case Remove(other) => other != name
    case _ => true
  }

  ghost predicate AllLeaveAlone(steps: seq<Step>, name: string) {
    forall i :: 0 <= i < |steps| ==> LeavesAlone(steps[i], name)
  }

  // What one transfer has put at a destination, no other transfer replaces, in any interleaving.
  lemma {:induction false} NeverReplaced(s: Store, steps: seq<Step>, filenames: nat -> string, name: string)
    requires Ok(s) && name in s.dest && s.dest[name].Transfer? && AllLeaveAlone(steps, name)
    requires Run(s, steps, filenames, true).Some?
    ensures var after := Run(s, steps, filenames, true).value; name in after.dest && after.dest[name] == s.dest[name]
  {
    if steps != [] {
      var init, last := steps[..|steps| - 1], steps[|steps| - 1];
      NeverReplaced(s, init, filenames, name);
      AlwaysOk(s, init, filenames);
      var before := Run(s, init, filenames, true).value;
      assert LeavesAlone(last, name);
      if last.Go? && PhaseOf(before, last.id).Renaming? {
        assert PhaseOf(before, last.id).name != name;
      }
    }
  }

  // So it is in every run from an empty store.
  lemma NeverReplacedInStore(steps: seq<Step>, more: seq<Step>, filenames: nat -> string, name: string)
    requires Run(EMPTY, steps, filenames, true).Some?
    requires var s := Run(EMPTY, steps, filenames, true).value;
      && name in s.dest && s.dest[name].Transfer? && AllLeaveAlone(more, name)
      && Run(s, more, filenames, true).Some?
    ensures var s := Run(EMPTY, steps, filenames, true).value;
      var after := Run(s, more, filenames, true).value;
      name in after.dest && after.dest[name] == s.dest[name]
  {
    AlwaysOk(EMPTY, steps, filenames);
    NeverReplaced(Run(EMPTY, steps, filenames, true).value, more, filenames, name);
  }

  // ---------- why the lock, and what it does not do ----------

  // Every transfer has the same filename.
  function Called(filename: string): nat -> string {
    (id: nat) => filename
  }

  function Runs(steps: seq<Step>, filename: string, locked: bool): Option<Store> {
    Run(EMPTY, steps, Called(filename), locked)
  }

  lemma RunOn(steps: seq<Step>, step: Step, filename: string, locked: bool)
    requires Runs(steps, filename, locked).Some?
    ensures Runs(steps + [step], filename, locked)
         == Apply(Runs(steps, filename, locked).value, step, Called(filename), locked)
  {
    assert (steps + [step])[..|steps|] == steps;
  }

  lemma GoesOn(before: seq<Step>, s: Store, id: nat, filename: string, locked: bool)
    returns (steps: seq<Step>, after: Store)
    requires Runs(before, filename, locked) == Some(s) && !PhaseOf(s, id).Outside?
    ensures Runs(steps, filename, locked) == Some(after) && after == Next(s, id, filename)
  {
    RunOn(before, Go(id), filename, locked);
    steps, after := before + [Go(id)], Next(s, id, filename);
  }

  lemma AtTwice(s: Store, id: nat, p: Phase, q: Phase)
    ensures At(At(s, id, p), id, q) == At(s, id, q)
  {
  }

  // A transfer that finds its filename free goes on to its commit record.
  lemma UpToRecord(before: seq<Step>, s: Store, id: nat, filename: string, locked: bool)
    returns (steps: seq<Step>, after: Store)
    requires Runs(before, filename, locked) == Some(s) && PhaseOf(s, id).Outside? && (locked ==> !LockHeld(s))
    requires id !in s.records && filename !in s.dest
    ensures after == At(s, id, Checking(filename)).(records := s.records[id := filename])
    ensures Runs(steps, filename, locked) == Some(after)
  {
    RunOn(before, Enter(id), filename, locked);
    steps, after := before + [Enter(id)], At(s, id, Reading);
    steps, after := GoesOn(steps, after, id, filename, locked);
    AtTwice(s, id, Reading, Trying(0));
    steps, after := GoesOn(steps, after, id, filename, locked);
    AtTwice(s, id, Trying(0), Recording(filename));
    steps, after := GoesOn(steps, after, id, filename, locked);
    AtTwice(s, id, Recording(filename), Checking(filename));
  }

  // Without the lock, two transfers find the same name free, and the second rename replaces the first.
  lemma ReplacedWithoutLock(filename: string) returns (steps: seq<Step>, s: Store)
    ensures Runs(steps, filename, false) == Some(s)
    ensures filename in s.dest && s.dest[filename] == Transfer(0) && PhaseOf(s, 1).Renaming?
    ensures var after := Apply(s, Go(1), Called(filename), false).value;
      filename in after.dest && after.dest[filename] == Transfer(1)
  {
    steps, s := UpToRecord([], EMPTY, 0, filename, false);
    steps, s := UpToRecord(steps, s, 1, filename, false);
    steps, s := GoesOn(steps, s, 0, filename, false);
    steps, s := GoesOn(steps, s, 1, filename, false);
    steps, s := GoesOn(steps, s, 0, filename, false);
  }

  // With it, a transfer that stops after its commit record leaves its name free: another records the
  // same name and puts its data there, and the first then finds something there.
  lemma NameNotReserved(filename: string) returns (steps: seq<Step>, s: Store)
    ensures Runs(steps, filename, true) == Some(s)
    ensures 0 in s.records && s.records[0] == filename && filename in s.dest && s.dest[filename] == Transfer(1)
  {
    var before;
    before, s := UpToRecord([], EMPTY, 0, filename, true);
    RunOn(before, Leave(0), filename, true);
    steps, s := before + [Leave(0)], At(s, 0, Outside);
    steps, s := UpToRecord(steps, s, 1, filename, true);
    steps, s := GoesOn(steps, s, 1, filename, true);
    steps, s := GoesOn(steps, s, 1, filename, true);
  }
}

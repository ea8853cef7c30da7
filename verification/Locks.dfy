// One lock per transfer id, kept by weak references, over every interleaving of the tasks of a store.
module Locks {
  import opened Wrappers
  import opened Text
  import opened Disk

  // Where a task is in `lock_transfer`: about to purge dead entries, about to look its lock up (both
  // under the map's own mutex), waiting for its lock, or holding it. The last two keep the lock object
  // alive.
  datatype Task =
    | Idle | Purging(id: string) | Looking(id: string) | Waiting(id: string, lock: nat) | Holding(id: string, lock: nat)

  // Lock objects are numbered as they are created; `entries` are the weak references.
  datatype Store = Store(tasks: map<nat, Task>, entries: map<string, nat>, created: nat)

  datatype Step =
    | Start(task: nat, id: string) | Purge(task: nat) | LookUp(task: nat) | Acquire(task: nat) | Release(task: nat)

  function TaskAt(s: Store, task: nat): Task {
    if task in s.tasks then s.tasks[task] else Idle
  }

  predicate Keeps(t: Task, lock: nat) {
    (t.Waiting? || t.Holding?) && t.lock == lock
  }

  // The strong count is not zero.
  predicate Alive(s: Store, lock: nat) {
    exists task :: task in s.tasks && Keeps(s.tasks[task], lock)
  }

  predicate MapBusy(s: Store) {
    exists task :: task in s.tasks && (s.tasks[task].Purging? || s.tasks[task].Looking?)
  }

  predicate Held(s: Store, lock: nat) {
    exists task :: task in s.tasks && s.tasks[task].Holding? && s.tasks[task].lock == lock
  }

  function With(s: Store, task: nat, t: Task): Store {
    s.(tasks := s.tasks[task := t])
  }

  // One step of one task; another task may drop its lock between any two of them.
  function Apply(s: Store, step: Step): Option<Store> {
    match step
    case Start(task, id) =>
      if TaskAt(s, task).Idle? && !MapBusy(s) then Some(With(s, task, Purging(id))) else None
    case Purge(task) =>
      var t := TaskAt(s, task);
      if !t.Purging? then None
      else
        var live := map id | id in s.entries && Alive(s, s.entries[id]) :: s.entries[id];
        Some(With(s, task, Looking(t.id)).(entries := live))
    case LookUp(task) =>
      var t := TaskAt(s, task);
      if !t.Looking? then None
      else if t.id in s.entries && Alive(s, s.entries[t.id]) then Some(With(s, task, Waiting(t.id, s.entries[t.id])))
      else
        var waiting := With(s, task, Waiting(t.id, s.created));
        Some(waiting.(entries := s.entries[t.id := s.created], created := s.created + 1))
    case Acquire(task) =>
      var t := TaskAt(s, task);
      if t.Waiting? && !Held(s, t.lock) then Some(With(s, task, Holding(t.id, t.lock))) else None
    case Release(task) =>
      // the guard is dropped, or the waiting task gives up
      var t := TaskAt(s, task);
      if t.Waiting? || t.Holding? then Some(With(s, task, Idle)) else None
  }

  function Run(steps: seq<Step>): Option<Store> {
    if steps == [] then Some(Store(map[], map[], 0))
    else
      var before := Run(steps[..|steps| - 1]);
      if before.None? then None else Apply(before.value, steps[|steps| - 1])
  }

  // Every lock that somebody keeps alive is the one entry of its id.
  ghost predicate Entered(s: Store) {
    forall task :: task in s.tasks && (s.tasks[task].Waiting? || s.tasks[task].Holding?) ==>
      s.tasks[task].id in s.entries && s.entries[s.tasks[task].id] == s.tasks[task].lock
  }

  ghost predicate Distinct(s: Store) {
    && (forall id :: id in s.entries ==> s.entries[id] < s.created)
    && (forall a, b :: a in s.entries && b in s.entries && s.entries[a] == s.entries[b] ==> a == b)
  }

  ghost predicate Exclusive(s: Store) {
    forall a, b ::
      && a in s.tasks && b in s.tasks && s.tasks[a].Holding? && s.tasks[b].Holding?
      && s.tasks[a].lock == s.tasks[b].lock ==>
      a == b
  }

  ghost predicate StoreOk(s: Store) {
    Entered(s) && Distinct(s) && Exclusive(s)
  }

  lemma PurgeOk(s: Store, task: nat)
    requires StoreOk(s) && TaskAt(s, task).Purging?
    ensures StoreOk(Apply(s, Purge(task)).value)
  {
    forall other | other in s.tasks && (s.tasks[other].Waiting? || s.tasks[other].Holding?)
      ensures Alive(s, s.entries[s.tasks[other].id])
    {
      assert Keeps(s.tasks[other], s.tasks[other].lock);
    }
  }

  lemma LookUpOk(s: Store, task: nat)
    requires StoreOk(s) && TaskAt(s, task).Looking?
    ensures StoreOk(Apply(s, LookUp(task)).value)
  {
    var id := TaskAt(s, task).id;
    if !(id in s.entries && Alive(s, s.entries[id])) {
      // nobody keeps a lock of this id, or it would be alive
      forall other | other in s.tasks && (s.tasks[other].Waiting? || s.tasks[other].Holding?)
        ensures s.tasks[other].id != id
      {
        assert Keeps(s.tasks[other], s.entries[s.tasks[other].id]);
      }
    }
  }

  lemma StepOk(s: Store, step: Step)
    requires StoreOk(s) && Apply(s, step).Some?
    ensures StoreOk(Apply(s, step).value)
  {
    match step
    case Purge(task) => PurgeOk(s, task);
    case LookUp(task) => LookUpOk(s, task);
    case _ =>
  }

  lemma {:induction false} AlwaysOk(steps: seq<Step>)
    requires Run(steps).Some?
    ensures StoreOk(Run(steps).value)
  {
    if steps != [] {
      AlwaysOk(steps[..|steps| - 1]);
      StepOk(Run(steps[..|steps| - 1]).value, steps[|steps| - 1]);
    }
  }

  // In every interleaving there is at most one live lock per id, and so at most one task past it.
  lemma OneLockPerTransfer(steps: seq<Step>, a: nat, b: nat)
    requires Run(steps).Some?
    requires var s := Run(steps).value;
      && a in s.tasks && b in s.tasks
      && (s.tasks[a].Waiting? || s.tasks[a].Holding?) && (s.tasks[b].Waiting? || s.tasks[b].Holding?)
      && s.tasks[a].id == s.tasks[b].id
    ensures var s := Run(steps).value;
      && s.tasks[a].lock == s.tasks[b].lock
      && (s.tasks[a].Holding? && s.tasks[b].Holding? ==> a == b)
  {
    AlwaysOk(steps);
  }

  // ---------- what a lock protects ----------

  function Extension(slot: Slot): string {
    match slot
    case Part => "part"
    case FolderPart => "folder.part"
    case MetadataJson => "json"
    case ManifestJson => "manifest.json"
    case CommitJson => "commit.json"
    case DoneJson => "done.json"
  }

  // The name of a sidecar file of a transfer.
  function StateName(id: string, slot: Slot): string {
    id + "." + Extension(slot)
  }

  lemma ExtensionsDiffer(a: Slot, b: Slot)
    requires Extension(a) == Extension(b)
    ensures a == b
  {
    assert |Extension(Part)| == 4 && |Extension(FolderPart)| == 11 && |Extension(MetadataJson)| == 4;
    assert |Extension(ManifestJson)| == 13 && |Extension(CommitJson)| == 11 && |Extension(DoneJson)| == 9;
    assert Extension(Part)[0] == 'p' && Extension(MetadataJson)[0] == 'j';
    assert Extension(FolderPart)[0] == 'f' && Extension(CommitJson)[0] == 'c';
  }

  // Transfers, whose ids hold no dot, share none of their sidecar files.
  lemma StateNamesDistinct(idA: string, a: Slot, idB: string, b: Slot)
    requires '.' !in idA && '.' !in idB
    ensures StateName(idA, a) == StateName(idB, b) <==> idA == idB && a == b
  {
    if StateName(idA, a) == StateName(idB, b) {
      FirstDot(idA, Extension(a));
      FirstDot(idB, Extension(b));
      assert StateName(idA, a)[|idA| + 1..] == Extension(a) && StateName(idB, b)[|idB| + 1..] == Extension(b);
      ExtensionsDiffer(a, b);
    }
  }

  // ASCII letters in lower case, as a file system that ignores case compares them.
  function LowerCase(s: string): (r: string)
    ensures |r| == |s|
  {
    seq(|s|, i requires 0 <= i < |s| => if 'A' <= s[i] <= 'Z' then s[i] - 'A' + 'a' else s[i])
  }

  lemma ExtensionsLower(slot: Slot)
    ensures LowerCase(Extension(slot)) == Extension(slot)
  {
  }

  // Where case is ignored, two transfers share a file exactly if their ids differ in case only; each
  // of them then has a lock of its own.
  lemma SharedUpToCase(idA: string, a: Slot, idB: string, b: Slot)
    requires '.' !in idA && '.' !in idB
    ensures LowerCase(StateName(idA, a)) == LowerCase(StateName(idB, b)) <==> LowerCase(idA) == LowerCase(idB) && a == b
  {
    ExtensionsLower(a);
    ExtensionsLower(b);
    assert LowerCase(StateName(idA, a)) == StateName(LowerCase(idA), a);
    assert LowerCase(StateName(idB, b)) == StateName(LowerCase(idB), b);
    StateNamesDistinct(LowerCase(idA), a, LowerCase(idB), b);
  }

  lemma FirstDot(id: string, extension: string)
    requires '.' !in id
    ensures BeforeFirst(id + "." + extension, '.') == id
  {
    var name := id + "." + extension;
    var before := BeforeFirst(name, '.');
    assert name[|id|] == '.' && '.' in name;
    assert forall k :: 0 <= k < |id| ==> name[k] == id[k] && id[k] in id;
    assert forall k :: 0 <= k < |before| ==> before[k] == name[k] && before[k] in before;
    assert |before| == |id|;
    assert before == name[..|id|];
  }
}

// Why no consumer of the event queue sleeps through an event or a close: every interleaving of
// consumers inside `pop` with emitters and `close`, over tokio's `Notify`.
module Wakeups {
  import opened Wrappers

  // `toNotify` emitters have queued an event and not yet called `notify_one`; `toWake` says `close`
  // has set its flag and not yet called `notify_waiters`. A consumer is starting (about to register),
  // looking (registered, about to inspect the queue) or waiting (it found nothing); a notification can
  // reach it in either of the last two, or be the stored permit it takes when it registers.
  datatype State = State(
    items: nat, closed: bool, toNotify: nat, toWake: bool, permit: bool,
    starting: nat, looking: nat, lookingNotified: nat, lookingPermit: nat, waiting: nat, notified: nat)

  datatype Step =
    | Emit(items: nat) | Notify(toLooking: bool) | Close | WakeAll | TryPop | Clear
    | Pop | Register | Look | LookNotified(toLooking: bool) | LookPermit
    | Wake | TimeOut | TimeOutNotified(toLooking: bool)

  function Start(): State {
    State(0, false, 0, false, false, 0, 0, 0, 0, 0, 0)
  }

  // `notify_one`: some registered consumer that is not notified yet, or else the permit.
  function NotifyOne(s: State, toLooking: bool): State {
    if s.looking > 0 && (toLooking || s.waiting == 0) then
      s.(looking := s.looking - 1, lookingNotified := s.lookingNotified + 1)
    else if s.waiting > 0 then s.(waiting := s.waiting - 1, notified := s.notified + 1)
    else s.(permit := true)
  }

  // One step, if it can happen.
  function Apply(s: State, step: Step): Option<State> {
    match step
    // an emission leaves at most one more item: it may replace, remove or refuse one
    case Emit(items) =>
      if s.closed || items > s.items + 1 then None else Some(s.(items := items, toNotify := s.toNotify + 1))
    case Notify(toLooking) =>
      if s.toNotify == 0 then None else Some(NotifyOne(s.(toNotify := s.toNotify - 1), toLooking))
    case Close => Some(s.(closed := true, toWake := true))
    case WakeAll =>
      if !s.toWake then None
      else Some(s.(toWake := false, starting := s.starting + s.waiting, waiting := 0,
                   lookingPermit := s.lookingPermit + s.looking, looking := 0))
    case TryPop => if s.items == 0 then None else Some(s.(items := s.items - 1))
    case Clear => Some(s.(items := 0))
    case Pop => Some(s.(starting := s.starting + 1))
    case Register =>
      if s.starting == 0 then None
      else if s.permit then Some(s.(starting := s.starting - 1, permit := false, lookingPermit := s.lookingPermit + 1))
      else Some(s.(starting := s.starting - 1, looking := s.looking + 1))
    case Look =>
      if s.looking == 0 then None
      else if s.items > 0 then Some(s.(looking := s.looking - 1, items := s.items - 1))
      else if s.closed then Some(s.(looking := s.looking - 1))
      else Some(s.(looking := s.looking - 1, waiting := s.waiting + 1))
    case LookNotified(toLooking) =>
      // a consumer that leaves with an unused notification passes it on
      if s.lookingNotified == 0 then None
      else if s.items > 0 then
        Some(NotifyOne(s.(lookingNotified := s.lookingNotified - 1, items := s.items - 1), toLooking))
      else if s.closed then Some(NotifyOne(s.(lookingNotified := s.lookingNotified - 1), toLooking))
      else Some(s.(lookingNotified := s.lookingNotified - 1, starting := s.starting + 1))
    case LookPermit =>
      if s.lookingPermit == 0 then None
      else if s.items > 0 then Some(s.(lookingPermit := s.lookingPermit - 1, items := s.items - 1))
      else if s.closed then Some(s.(lookingPermit := s.lookingPermit - 1))
      else Some(s.(lookingPermit := s.lookingPermit - 1, starting := s.starting + 1))
    case Wake => if s.notified == 0 then None else Some(s.(notified := s.notified - 1, starting := s.starting + 1))
    case TimeOut => if s.waiting == 0 then None else Some(s.(waiting := s.waiting - 1))
    case TimeOutNotified(toLooking) =>
      if s.notified == 0 then None else Some(NotifyOne(s.(notified := s.notified - 1), toLooking))
  }

  function Run(steps: seq<Step>): Option<State> {
    if steps == [] then Some(Start())
    else
      var before := Run(steps[..|steps| - 1]);
      if before.None? then None else Apply(before.value, steps[|steps| - 1])
  }

  // While somebody waits, every queued item is matched by something still on its way to a consumer;
  // a notified consumer that is still looking counts twice, for it takes an item and passes on.
  ghost predicate Awake(s: State) {
    && (s.permit ==> s.looking == 0 && s.waiting == 0)
    && (s.waiting > 0 ==>
      s.items <= s.toNotify + s.starting + s.looking + 2 * s.lookingNotified + s.lookingPermit + s.notified)
    && (s.closed && s.waiting > 0 ==> s.toWake)
  }

  lemma AwakeKept(s: State, step: Step)
    requires Awake(s) && Apply(s, step).Some?
    ensures Awake(Apply(s, step).value)
  {
  }

  lemma {:induction false} AwakeAlways(steps: seq<Step>)
    requires Run(steps).Some?
    ensures Awake(Run(steps).value)
  {
    if steps != [] {
      AwakeAlways(steps[..|steps| - 1]);
      AwakeKept(Run(steps[..|steps| - 1]).value, steps[|steps| - 1]);
    }
  }

  // Nothing is on its way to anybody any more.
  predicate Still(s: State) {
    && s.toNotify == 0 && !s.toWake && s.starting == 0 && s.looking == 0 && s.lookingNotified == 0
    && s.lookingPermit == 0 && s.notified == 0
  }

  // In every interleaving: if a consumer sleeps on when all else is done, the queue is empty and open.
  lemma NoLostWakeup(steps: seq<Step>)
    requires Run(steps).Some? && Still(Run(steps).value) && Run(steps).value.waiting > 0
    ensures Run(steps).value.items == 0 && !Run(steps).value.closed
  {
    AwakeAlways(steps);
  }
}

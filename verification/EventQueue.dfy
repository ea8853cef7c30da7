// The service's event queue: critical events lossless, snapshots coalesced, progress droppable.
module EventQueue {
  import opened Wrappers
  import opened Text

  const DROPPABLE_EVENT_CAPACITY: nat := 128
  const MAX_SNAPSHOT_QUEUE_CAPACITY: nat := DROPPABLE_EVENT_CAPACITY * 8

  // `session` stands for `data["session_id"]`.
  datatype Event = Event(name: string, session: string, data: string)

  predicate IsDroppable(e: Event) {
    e.name == "lan.progress" || e.name == "lan.status"
  }

  predicate IsSnapshot(e: Event) {
    e.name == "lan.peers"
  }

  predicate IsCritical(e: Event) {
    !IsDroppable(e) && !IsSnapshot(e)
  }

  predicate SameStream(a: Event, b: Event) {
    a.name == b.name && a.session == b.session
  }

  lemma ClassesDisjoint(e: Event)
    ensures !(IsDroppable(e) && IsSnapshot(e))
  {
    assert "lan.progress"[4] != "lan.peers"[4] || "lan.progress"[5] != "lan.peers"[5];
    assert "lan.status"[4] != "lan.peers"[4];
  }

  function FirstWhere(items: seq<Event>, p: Event -> bool): (r: Option<nat>)
    ensures r.Some? ==> r.value < |items| && p(items[r.value]) && forall i :: 0 <= i < r.value ==> !p(items[i])
    ensures r.None? ==> forall i :: 0 <= i < |items| ==> !p(items[i])
  {
    if items == [] then None
    else if p(items[0]) then Some(0)
    else
      var rest := FirstWhere(items[1..], p);
      assert forall i :: 0 < i < |items| ==> items[i] == items[1..][i - 1];
      if rest.Some? then Some(rest.value + 1) else None
  }

  // What is queued once room was made for a snapshot, if room can be made.
  function Roomier(items: seq<Event>): seq<Event> {
    var droppable, stale := FirstWhere(items, IsDroppable), FirstWhere(items, IsSnapshot);
    if |items| >= DROPPABLE_EVENT_CAPACITY && droppable.Some? then Without(items, droppable.value)
    else if |items| >= MAX_SNAPSHOT_QUEUE_CAPACITY && stale.Some? then Without(items, stale.value)
    else items
  }

  // Nothing in the queue may give way, and it is at its largest.
  predicate Full(items: seq<Event>) {
    |items| >= MAX_SNAPSHOT_QUEUE_CAPACITY && forall i :: 0 <= i < |items| ==> IsCritical(items[i])
  }

  function AfterSnapshot(items: seq<Event>, e: Event): seq<Event> {
    var queued := FirstWhere(items, q => SameStream(q, e));
    if queued.Some? then items[queued.value := e] else if Full(items) then items else Roomier(items) + [e]
  }

  // ---------- what the history says ----------

  // The indices in `at` of critical events, in order.
  ghost function Criticals(at: seq<nat>, emitted: seq<Event>): seq<nat> {
    if at == [] then []
    else
      var last := at[|at| - 1];
      Criticals(at[..|at| - 1], emitted) + (if last < |emitted| && IsCritical(emitted[last]) then [last] else [])
  }

  ghost function Upto(n: nat): (s: seq<nat>)
    ensures |s| == n && forall i :: 0 <= i < n ==> s[i] == i
  {
    seq(n, i requires 0 <= i < n => i)
  }

  lemma {:induction false} CriticalsAppend(a: seq<nat>, b: seq<nat>, emitted: seq<Event>)
    ensures Criticals(a + b, emitted) == Criticals(a, emitted) + Criticals(b, emitted)
  {
    if b == [] {
      assert a + b == a;
    } else {
      var init := b[..|b| - 1];
      assert (a + b)[..|a + b| - 1] == a + init;
      CriticalsAppend(a, init, emitted);
    }
  }

  lemma OneCritical(n: nat, emitted: seq<Event>)
    requires n < |emitted|
    ensures Criticals([n], emitted) == if IsCritical(emitted[n]) then [n] else []
  {
    assert [n][..0] == [];
  }

  lemma CriticalsMiddle(a: seq<nat>, n: nat, c: seq<nat>, emitted: seq<Event>)
    requires n < |emitted| && !IsCritical(emitted[n])
    ensures Criticals((a + [n]) + c, emitted) == Criticals(a + c, emitted)
  {
    calc {
      Criticals((a + [n]) + c, emitted);
      { CriticalsAppend(a + [n], c, emitted); }
      Criticals(a + [n], emitted) + Criticals(c, emitted);
      { CriticalsAppend(a, [n], emitted); OneCritical(n, emitted); }
      (Criticals(a, emitted) + []) + Criticals(c, emitted);
      Criticals(a, emitted) + Criticals(c, emitted);
      { CriticalsAppend(a, c, emitted); }
      Criticals(a + c, emitted);
    }
  }

  lemma CriticalsWithout(at: seq<nat>, i: nat, emitted: seq<Event>)
    requires i < |at| && at[i] < |emitted| && !IsCritical(emitted[at[i]])
    ensures Criticals(Without(at, i), emitted) == Criticals(at, emitted)
  {
    SplitAround(at, i);
    CriticalsMiddle(at[..i], at[i], at[i + 1..], emitted);
  }

  lemma CriticalsReplace(at: seq<nat>, i: nat, n: nat, emitted: seq<Event>)
    requires i < |at| && at[i] < |emitted| && !IsCritical(emitted[at[i]]) && n < |emitted| && !IsCritical(emitted[n])
    ensures Criticals(at[i := n], emitted) == Criticals(at, emitted)
  {
    assert Without(at[i := n], i) == Without(at, i);
    CriticalsWithout(at, i, emitted);
    CriticalsWithout(at[i := n], i, emitted);
  }

  // Events emitted later do not change which of the earlier ones are critical.
  lemma {:induction false} CriticalsStable(at: seq<nat>, emitted: seq<Event>, e: Event)
    requires forall i :: 0 <= i < |at| ==> at[i] < |emitted|
    ensures Criticals(at, emitted + [e]) == Criticals(at, emitted)
  {
    if at != [] {
      CriticalsStable(at[..|at| - 1], emitted, e);
    }
  }

  // The critical events emitted from index `from` on.
  ghost function CriticalsSince(emitted: seq<Event>, from: nat): seq<nat>
    requires from <= |emitted|
  {
    Criticals(Upto(|emitted|)[from..], emitted)
  }

  lemma CriticalsEmit(emitted: seq<Event>, from: nat, e: Event)
    requires from <= |emitted|
    ensures CriticalsSince(emitted + [e], from)
         == CriticalsSince(emitted, from) + (if IsCritical(e) then [|emitted|] else [])
  {
    var n := |emitted|;
    var more := Upto(n + 1)[from..];
    assert more[..|more| - 1] == Upto(n)[from..] && more[|more| - 1] == n;
    CriticalsStable(Upto(n)[from..], emitted, e);
  }

  // Two emissions of snapshots for one stream.
  ghost predicate SameSnapshot(emitted: seq<Event>, i: nat, j: nat) {
    i < |emitted| && j < |emitted| && IsSnapshot(emitted[i]) && SameStream(emitted[i], emitted[j])
  }

  // ---------- the queue and its history ----------

  // `origins[i]` is the emission that `items[i]` came from; `popped` lists the emissions delivered so
  // far; `cleared` and `base` are the numbers of emissions and deliveries at the last `clear`.
  datatype History = History(emitted: seq<Event>, origins: seq<nat>, popped: seq<nat>, cleared: nat, base: nat)

  ghost predicate Traced(items: seq<Event>, h: History) {
    && |h.origins| == |items|
    && (forall i :: 0 <= i < |items| ==> h.origins[i] < |h.emitted| && h.emitted[h.origins[i]] == items[i])
    && (forall i :: 0 <= i < |h.popped| ==> h.popped[i] < |h.emitted|)
    && h.cleared <= |h.emitted| && h.base <= |h.popped|
  }

  // Since the last `clear`, the critical events delivered and then those queued are exactly the
  // critical events emitted, each once, in order.
  ghost predicate Lossless(h: History)
    requires h.cleared <= |h.emitted| && h.base <= |h.popped|
  {
    Criticals(h.popped[h.base..], h.emitted) + Criticals(h.origins, h.emitted) == CriticalsSince(h.emitted, h.cleared)
  }

  // A queued snapshot is the newest one emitted for its stream, and the only one queued.
  ghost predicate Newest(h: History) {
    && (forall i, k :: 0 <= i < |h.origins| && SameSnapshot(h.emitted, h.origins[i], k) ==> k <= h.origins[i])
    && (forall i, j ::
         0 <= i < |h.origins| && 0 <= j < |h.origins| && SameSnapshot(h.emitted, h.origins[i], h.origins[j]) ==> i == j)
  }

  // Delivered snapshots of one stream never go backwards, nor will the queued one.
  ghost predicate Forwards(h: History) {
    && (forall i, j :: 0 <= i < j < |h.popped| && SameSnapshot(h.emitted, h.popped[i], h.popped[j]) ==>
         h.popped[i] < h.popped[j])
    && (forall i, j ::
         0 <= i < |h.popped| && 0 <= j < |h.origins| && SameSnapshot(h.emitted, h.popped[i], h.origins[j]) ==>
      h.popped[i] < h.origins[j])
  }

  function Count(items: seq<Event>, p: Event -> bool): (n: nat)
    ensures n <= |items|
  {
    if items == [] then 0 else Count(items[..|items| - 1], p) + (if p(items[|items| - 1]) then 1 else 0)
  }

  predicate NotCritical(e: Event) {
    !IsCritical(e)
  }

  ghost predicate Bounded(items: seq<Event>) {
    Count(items, NotCritical) <= MAX_SNAPSHOT_QUEUE_CAPACITY && Count(items, IsDroppable) <= DROPPABLE_EVENT_CAPACITY
  }

  ghost predicate QueueOk(items: seq<Event>, h: History) {
    Traced(items, h) && Lossless(h) && Newest(h) && Forwards(h) && Bounded(items)
  }

  // ---------- what each change keeps ----------

  // No queued snapshot belongs to the stream of `e`.
  ghost predicate Unqueued(items: seq<Event>, e: Event) {
    forall i :: 0 <= i < |items| ==> !(IsSnapshot(items[i]) && SameStream(items[i], e))
  }

  function Refused(h: History, e: Event): History {
    h.(emitted := h.emitted + [e])
  }

  function Pushed(h: History, e: Event): History {
    h.(emitted := h.emitted + [e], origins := h.origins + [|h.emitted|])
  }

  function Replaced(h: History, e: Event, i: nat): History
    requires i < |h.origins|
  {
    h.(emitted := h.emitted + [e], origins := h.origins[i := |h.emitted|])
  }

  function Removed(h: History, i: nat): History
    requires i < |h.origins|
  {
    h.(origins := Without(h.origins, i))
  }

  function Popped(h: History): History
    requires h.origins != []
  {
    h.(popped := h.popped + [h.origins[0]], origins := h.origins[1..])
  }

  // The order of snapshots, apart from the rest of the invariant.
  ghost predicate InOrder(items: seq<Event>, h: History) {
    Traced(items, h) && Newest(h) && Forwards(h)
  }

  lemma RefuseOrder(items: seq<Event>, h: History, e: Event)
    requires InOrder(items, h) && Unqueued(items, e)
    ensures InOrder(items, Refused(h, e))
  {
    var g := Refused(h, e);
    forall i: nat, k: nat | i < |g.origins| && SameSnapshot(g.emitted, g.origins[i], k) ensures k <= g.origins[i] {
      if k < |h.emitted| {
        assert SameSnapshot(h.emitted, h.origins[i], k);
      }
    }
    SamePast(h, e);
  }

  // What holds between earlier emissions is not changed by a later one.
  lemma SamePast(h: History, e: Event)
    ensures forall i: nat, j: nat :: i < |h.emitted| && j < |h.emitted| ==>
      (SameSnapshot(h.emitted + [e], i, j) <==> SameSnapshot(h.emitted, i, j))
  {
  }

  lemma PushOrder(items: seq<Event>, h: History, e: Event)
    requires InOrder(items, h) && Unqueued(items, e)
    ensures InOrder(items + [e], Pushed(h, e))
  {
    var g, n := Pushed(h, e), |h.emitted|;
    SamePast(h, e);
    forall i: nat, k: nat | i < |g.origins| && SameSnapshot(g.emitted, g.origins[i], k) ensures k <= g.origins[i] {
      if i < |h.origins| && k < n {
        assert SameSnapshot(h.emitted, h.origins[i], k);
      }
    }
  }

  lemma ReplaceOrder(items: seq<Event>, h: History, e: Event, i: nat)
    requires InOrder(items, h) && i < |items| && IsSnapshot(items[i]) && SameStream(items[i], e)
    ensures InOrder(items[i := e], Replaced(h, e, i))
  {
    var g, n := Replaced(h, e, i), |h.emitted|;
    SamePast(h, e);
    assert forall j :: 0 <= j < |h.origins| && j != i ==> !SameSnapshot(h.emitted, h.origins[j], h.origins[i]);
    assert forall j :: 0 <= j < |h.origins| && j != i ==> !SameSnapshot(g.emitted, h.origins[j], n);
    forall j: nat, k: nat | j < |g.origins| && SameSnapshot(g.emitted, g.origins[j], k) ensures k <= g.origins[j] {
      assert j != i && k < n ==> SameSnapshot(h.emitted, h.origins[j], k);
    }
    forall j, k | 0 <= j < |g.origins| && 0 <= k < |g.origins| && SameSnapshot(g.emitted, g.origins[j], g.origins[k])
      ensures j == k
    {
      assert SameSnapshot(h.emitted, h.origins[j], h.origins[k]);
    }
    forall j, k | 0 <= j < |g.popped| && 0 <= k < |g.origins| && SameSnapshot(g.emitted, g.popped[j], g.origins[k])
      ensures g.popped[j] < g.origins[k]
    {
      assert SameSnapshot(h.emitted, h.popped[j], h.origins[k]);
    }
  }

  lemma RemoveOrder(items: seq<Event>, h: History, i: nat)
    requires InOrder(items, h) && i < |items|
    ensures InOrder(Without(items, i), Removed(h, i))
  {
    var g := Removed(h, i);
    forall j | 0 <= j < |g.origins| ensures g.origins[j] == h.origins[if j < i then j else j + 1] {
    }
  }

  lemma PopOrder(items: seq<Event>, h: History)
    requires InOrder(items, h) && items != []
    ensures InOrder(items[1..], Popped(h))
  {
    var g := Popped(h);
    assert forall j :: 0 <= j < |g.origins| ==> g.origins[j] == h.origins[j + 1];
    assert forall k :: 0 < k < |h.origins| ==> !SameSnapshot(h.emitted, h.origins[0], h.origins[k]);
  }

  // ---------- critical events ----------

  lemma RefuseLossless(items: seq<Event>, h: History, e: Event)
    requires Traced(items, h) && Lossless(h) && !IsCritical(e)
    ensures Lossless(Refused(h, e))
  {
    CriticalsEmit(h.emitted, h.cleared, e);
    CriticalsStable(h.popped[h.base..], h.emitted, e);
    CriticalsStable(h.origins, h.emitted, e);
  }

  lemma PushLossless(items: seq<Event>, h: History, e: Event)
    requires Traced(items, h) && Lossless(h)
    ensures Lossless(Pushed(h, e))
  {
    var more, n := h.emitted + [e], |h.emitted|;
    var out, queued := Criticals(h.popped[h.base..], h.emitted), Criticals(h.origins, h.emitted);
    var added := if IsCritical(e) then [n] else [];
    CriticalsEmit(h.emitted, h.cleared, e);
    CriticalsStable(h.popped[h.base..], h.emitted, e);
    CriticalsPush(h, e);
    assert out + (queued + added) == (out + queued) + added;
  }

  lemma CriticalsPush(h: History, e: Event)
    requires forall i :: 0 <= i < |h.origins| ==> h.origins[i] < |h.emitted|
    ensures Criticals(h.origins + [|h.emitted|], h.emitted + [e])
         == Criticals(h.origins, h.emitted) + (if IsCritical(e) then [|h.emitted|] else [])
  {
    CriticalsStable(h.origins, h.emitted, e);
    CriticalsAppend(h.origins, [|h.emitted|], h.emitted + [e]);
    OneCritical(|h.emitted|, h.emitted + [e]);
  }

  lemma ReplaceLossless(items: seq<Event>, h: History, e: Event, i: nat)
    requires Traced(items, h) && Lossless(h) && i < |items| && IsSnapshot(items[i]) && IsSnapshot(e)
    ensures Lossless(Replaced(h, e, i))
  {
    RefuseLossless(items, h, e);
    CriticalsReplace(h.origins, i, |h.emitted|, h.emitted + [e]);
  }

  lemma RemoveLossless(items: seq<Event>, h: History, i: nat)
    requires Traced(items, h) && Lossless(h) && i < |items| && !IsCritical(items[i])
    ensures Lossless(Removed(h, i))
  {
    CriticalsWithout(h.origins, i, h.emitted);
  }

  lemma PopLossless(items: seq<Event>, h: History)
    requires Traced(items, h) && Lossless(h) && items != []
    ensures Lossless(Popped(h))
  {
    var first, rest, out := [h.origins[0]], h.origins[1..], h.popped[h.base..];
    assert h.origins == first + rest;
    assert (h.popped + first)[h.base..] == out + first;
    CriticalsMoved(out, first, rest, h.emitted);
  }

  lemma CriticalsMoved(out: seq<nat>, first: seq<nat>, rest: seq<nat>, emitted: seq<Event>)
    ensures Criticals(out + first, emitted) + Criticals(rest, emitted)
         == Criticals(out, emitted) + Criticals(first + rest, emitted)
  {
    CriticalsAppend(first, rest, emitted);
    CriticalsAppend(out, first, emitted);
    Regrouped(Criticals(out, emitted), Criticals(first, emitted), Criticals(rest, emitted));
  }

  lemma Regrouped<T>(a: seq<T>, b: seq<T>, c: seq<T>)
    ensures (a + b) + c == a + (b + c)
  {
  }

  // ---------- bounds ----------

  lemma {:induction false} CountAppend(a: seq<Event>, b: seq<Event>, p: Event -> bool)
    ensures Count(a + b, p) == Count(a, p) + Count(b, p)
  {
    if b == [] {
      assert a + b == a;
    } else {
      assert (a + b)[..|a + b| - 1] == a + b[..|b| - 1];
      CountAppend(a, b[..|b| - 1], p);
    }
  }

  lemma CountOne(e: Event, p: Event -> bool)
    ensures Count([e], p) == if p(e) then 1 else 0
  {
    assert [e][..0] == [];
  }

  lemma CountPush(items: seq<Event>, e: Event, p: Event -> bool)
    ensures Count(items + [e], p) == Count(items, p) + (if p(e) then 1 else 0)
  {
    CountAppend(items, [e], p);
    CountOne(e, p);
  }

  lemma CountWithout(items: seq<Event>, i: nat, p: Event -> bool)
    requires i < |items|
    ensures Count(Without(items, i), p) == Count(items, p) - (if p(items[i]) then 1 else 0)
  {
    SplitAround(items, i);
    CountAppend(items[..i] + [items[i]], items[i + 1..], p);
    CountPush(items[..i], items[i], p);
    CountAppend(items[..i], items[i + 1..], p);
  }

  lemma CountReplace(items: seq<Event>, i: nat, e: Event, p: Event -> bool)
    requires i < |items| && p(items[i]) == p(e)
    ensures Count(items[i := e], p) == Count(items, p)
  {
    assert Without(items[i := e], i) == Without(items, i);
    CountWithout(items, i, p);
    CountWithout(items[i := e], i, p);
  }

  // ---------- the queue ----------

  class Queue {
    var items: seq<Event>
    var closed: bool
    ghost var history: History

    ghost predicate Valid()
      reads this
    {
      QueueOk(items, history)
    }

    constructor ()
      ensures Valid() && items == [] && !closed && history == History([], [], [], 0, 0)
    {
      items, closed, history := [], false, History([], [], [], 0, 0);
    }

    // A critical event is always queued; progress is refused from 128 items on; a snapshot replaces
    // the one queued for its stream, and is refused only by 1024 or more critical events.
    method Emit(e: Event)
      requires Valid()
      modifies this
      ensures Valid() && closed == old(closed)
      ensures closed ==> items == old(items) && history == old(history)
      ensures !closed ==>
        && history.emitted == old(history.emitted) + [e] && history.popped == old(history.popped)
        && history.cleared == old(history.cleared) && history.base == old(history.base)
      ensures !closed && IsCritical(e) ==> items == old(items) + [e]
      ensures !closed && IsDroppable(e) ==>
        items == if |old(items)| < DROPPABLE_EVENT_CAPACITY then old(items) + [e] else old(items)
      ensures !closed && IsSnapshot(e) ==>
        && items == AfterSnapshot(old(items), e)
        && (|old(history.emitted)| in history.origins <==> !Full(old(items)))
    {
      ClassesDisjoint(e);
      if closed {
      } else if IsSnapshot(e) {
        EmitSnapshot(e);
      } else if IsDroppable(e) && |items| >= DROPPABLE_EVENT_CAPACITY {
        Refuse(e);
      } else {
        Push(e);
      }
    }

    ghost method Refuse(e: Event)
      requires Valid() && !IsCritical(e) && Unqueued(items, e)
      modifies this`history
      ensures Valid() && history == Refused(old(history), e)
    {
      RefuseOrder(items, history, e);
      RefuseLossless(items, history, e);
      history := Refused(history, e);
    }

    method Push(e: Event)
      requires Valid() && Unqueued(items, e)
      requires IsDroppable(e) ==> |items| < DROPPABLE_EVENT_CAPACITY
      requires IsSnapshot(e) ==>
        |items| < MAX_SNAPSHOT_QUEUE_CAPACITY || Count(items, NotCritical) < MAX_SNAPSHOT_QUEUE_CAPACITY
      modifies this`items, this`history
      ensures Valid() && items == old(items) + [e] && history == Pushed(old(history), e)
    {
      PushOrder(items, history, e);
      PushLossless(items, history, e);
      CountPush(items, e, NotCritical);
      CountPush(items, e, IsDroppable);
      ClassesDisjoint(e);
      items, history := items + [e], Pushed(history, e);
    }

    method Remove(i: nat)
      requires Valid() && i < |items| && !IsCritical(items[i])
      modifies this`items, this`history
      ensures Valid() && items == Without(old(items), i) && history == Removed(old(history), i)
      ensures Count(items, NotCritical) < Count(old(items), NotCritical)
      ensures forall e :: old(Unqueued(items, e)) ==> Unqueued(items, e)
    {
      RemoveOrder(items, history, i);
      RemoveLossless(items, history, i);
      CountWithout(items, i, NotCritical);
      CountWithout(items, i, IsDroppable);
      items, history := Without(items, i), Removed(history, i);
    }

    method EmitSnapshot(e: Event)
      requires Valid() && IsSnapshot(e)
      modifies this`items, this`history
      ensures Valid()
      ensures history.emitted == old(history.emitted) + [e] && history.popped == old(history.popped)
      ensures history.cleared == old(history.cleared) && history.base == old(history.base)
      ensures items == AfterSnapshot(old(items), e)
      ensures |old(history.emitted)| in history.origins <==> !Full(old(items))
    {
      ghost var n := |history.emitted|;
      var queued := FirstWhere(items, q => SameStream(q, e));
      if queued.Some? {
        NotFull(items, queued.value);
        Supersede(queued.value, e);
        assert history.origins[queued.value] == n;
      } else {
        var room := MakeRoom(e);
        if room {
          Push(e);
          assert history.origins[|history.origins| - 1] == n;
        } else {
          Refuse(e);
        }
      }
    }

    // Gives way to a snapshot: progress from 128 items on, and at 1024 an older snapshot.
    method MakeRoom(e: Event) returns (room: bool)
      requires Valid() && Unqueued(items, e)
      modifies this`items, this`history
      ensures Valid() && Unqueued(items, e)
      ensures history == old(history).(origins := history.origins)
      ensures room <==> !Full(old(items))
      ensures items == Roomier(old(items))
      ensures !room ==> items == old(items) && history == old(history)
      ensures room ==> |items| < MAX_SNAPSHOT_QUEUE_CAPACITY || Count(items, NotCritical) < MAX_SNAPSHOT_QUEUE_CAPACITY
    {
      var droppable := FirstWhere(items, IsDroppable);
      var stale := FirstWhere(items, IsSnapshot);
      room := true;
      if |items| >= DROPPABLE_EVENT_CAPACITY && droppable.Some? {
        NotFull(items, droppable.value);
        Remove(droppable.value);
      } else if |items| >= MAX_SNAPSHOT_QUEUE_CAPACITY {
        if stale.Some? {
          NotFull(items, stale.value);
          Remove(stale.value);
        } else {
          room := false;
        }
      }
    }

    method Supersede(i: nat, e: Event)
      requires Valid() && i < |items| && IsSnapshot(e) && SameStream(items[i], e)
      modifies this`items, this`history
      ensures Valid() && items == old(items)[i := e] && history == Replaced(old(history), e, i)
    {
      ReplaceOrder(items, history, e, i);
      ReplaceLossless(items, history, e, i);
      CountReplace(items, i, e, NotCritical);
      CountReplace(items, i, e, IsDroppable);
      items, history := items[i := e], Replaced(history, e, i);
    }

    // The front item, closed or not.
    method TryPop() returns (r: Option<Event>)
      requires Valid()
      modifies this`items, this`history
      ensures Valid()
      ensures r == if old(items) == [] then None else Some(old(items)[0])
      ensures items == if old(items) == [] then [] else old(items)[1..]
      ensures history.emitted == old(history.emitted)
      ensures r.Some? ==> history.popped == old(history.popped) + [old(history.origins)[0]]
    {
      if items == [] {
        r := None;
      } else {
        r := Some(items[0]);
        PopOrder(items, history);
        PopLossless(items, history);
        assert items == [items[0]] + items[1..];
        CountAppend([items[0]], items[1..], NotCritical);
        CountAppend([items[0]], items[1..], IsDroppable);
        items, history := items[1..], Popped(history);
      }
    }

    method Clear()
      requires Valid()
      modifies this`items, this`history
      ensures Valid() && items == []
      ensures history == old(history).(origins := [], cleared := |old(history).emitted|, base := |old(history).popped|)
    {
      items := [];
      history := history.(origins := [], cleared := |history.emitted|, base := |history.popped|);
    }

    // What was queued before can still be popped.
    method Close()
      requires Valid()
      modifies this`closed
      ensures Valid() && closed
    {
      closed := true;
    }
  }

  lemma NotFull(items: seq<Event>, i: nat)
    requires i < |items| && (IsDroppable(items[i]) || IsSnapshot(items[i]))
    ensures !IsCritical(items[i]) && !Full(items)
  {
  }
}

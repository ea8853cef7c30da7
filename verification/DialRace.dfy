// The staggered dial race over the addresses of a host.
module DialRace {
  import opened Wrappers
  import opened Text

  // What the runtime lets happen next: the stagger timer, the end of a dial in flight (picked by
  // number), or a cancellation. Which of them, the race does not control.
  datatype Choice = Timer | Finish(pick: nat, connected: bool) | Cancel

  datatype Outcome = Connected(address: nat) | AllFailed | Cancelled

  // What has been done: which addresses were dialled, in order, which have failed, and how many dials
  // were in flight at each wait.
  datatype Trace = Trace(dialled: seq<nat>, failed: set<nat>, waits: seq<nat>)

  // `dialled` is the first addresses in order; all of them have failed or are in flight.
  ghost predicate TraceOk(t: Trace, attempts: seq<nat>, n: nat) {
    && |t.dialled| <= n && (forall i :: 0 <= i < |t.dialled| ==> t.dialled[i] == i)
    && (forall i :: 0 <= i < |attempts| ==> attempts[i] < |t.dialled| && attempts[i] !in t.failed)
    && (forall i, j :: 0 <= i < j < |attempts| ==> attempts[i] != attempts[j])
    && (forall a :: 0 <= a < |t.dialled| ==> a in t.failed || a in attempts)
    && (forall a :: a in t.failed ==> a < |t.dialled|)
    && (forall i :: 0 <= i < |t.waits| ==> t.waits[i] > 0)
  }

  lemma WithoutKeeps(s: seq<nat>, i: nat)
    requires i < |s|
    ensures |Without(s, i)| == |s| - 1
    ensures forall k :: 0 <= k < |s| - 1 ==> Without(s, i)[k] == s[if k < i then k else k + 1]
    ensures forall x :: x in s ==> x == s[i] || x in Without(s, i)
  {
    SplitAround(s, i);
  }

  function Dialled(t: Trace): Trace {
    t.(dialled := t.dialled + [|t.dialled|])
  }

  lemma DialOk(t: Trace, attempts: seq<nat>, n: nat)
    requires TraceOk(t, attempts, n) && |t.dialled| < n
    ensures TraceOk(Dialled(t), attempts + [|t.dialled|], n)
  {
    var m := |t.dialled|;
    var more := attempts + [m];
    assert more[|attempts|] == m;
    forall a | 0 <= a < m + 1 ensures a in t.failed || a in more {
      if a < m {
        assert a in t.failed || a in attempts;
      }
    }
  }

  lemma FailOk(t: Trace, attempts: seq<nat>, n: nat, pick: nat)
    requires TraceOk(t, attempts, n) && pick < |attempts|
    ensures TraceOk(t.(failed := t.failed + {attempts[pick]}), Without(attempts, pick), n)
  {
    var rest := Without(attempts, pick);
    WithoutKeeps(attempts, pick);
    forall a | 0 <= a < |t.dialled| ensures a in t.failed + {attempts[pick]} || a in rest {
      assert a in t.failed || a in attempts;
    }
  }

  // What can still happen: two turns for an address that is not dialled yet, one for a dial in flight.
  function Left(t: Trace, attempts: seq<nat>, n: nat): int {
    2 * (n - |t.dialled|) + |attempts|
  }

  // One wait, with something in flight.
  method Await(n: nat, choice: Choice, t0: Trace, attempts0: seq<nat>, started0: nat)
    returns (ended: Option<Outcome>, t: Trace, attempts: seq<nat>, started: nat)
    requires TraceOk(t0, attempts0, n) && attempts0 != [] && started0 <= 1
    ensures TraceOk(t, attempts, n) && t.waits == t0.waits + [|attempts0|]
    ensures ended.None? ==> Left(t, attempts, n) == Left(t0, attempts0, n) - 1
    ensures ended.None? ==> started <= started0 && (started == 1 ==> attempts != [])
    ensures ended.Some? ==>
      match ended.value
      case Connected(address) => address < |t.dialled| && address !in t.failed
      case AllFailed => false
      case Cancelled => choice.Cancel?
  {
    t, attempts, started, ended := t0.(waits := t0.waits + [|attempts0|]), attempts0, started0, None;
    if choice.Cancel? {
      ended := Some(Cancelled);
    } else if choice.Timer? && |t.dialled| < n {
      DialOk(t, attempts, n);
      attempts, t := attempts + [|t.dialled|], Dialled(t);
    } else {
      // the timer is off once everything has been dialled
      var pick := if choice.Timer? then 0 else choice.pick % |attempts|;
      if choice.Finish? && choice.connected {
        ended := Some(Connected(attempts[pick]));
      } else {
        FailOk(t, attempts, n, pick);
        attempts, t := Without(attempts, pick), t.(failed := t.failed + {attempts[pick]});
        started := if started > 0 then started - 1 else 0;
      }
    }
  }

  // The loop of `race_addresses` over the addresses 0 .. n - 1. It ends for every sequence of choices,
  // for each turn dials or finishes one; it never waits with nothing in flight.
  method RaceAddresses(n: nat, choose: nat -> Choice) returns (r: Outcome, t: Trace)
    ensures |t.dialled| <= n && forall i :: 0 <= i < |t.dialled| ==> t.dialled[i] == i
    ensures r.Connected? ==> r.address < |t.dialled| && r.address !in t.failed
    ensures r.AllFailed? ==> |t.dialled| == n && forall i :: 0 <= i < n ==> t.dialled[i] in t.failed
    ensures |t.waits| <= 2 * n && forall i :: 0 <= i < |t.waits| ==> t.waits[i] > 0
  {
    var attempts: seq<nat> := [];
    t := Trace([], {}, []);
    var started: nat := 0;
    while true
      invariant TraceOk(t, attempts, n)
      invariant started <= 1 && (started == 1 ==> |attempts| > 0)
      invariant |t.waits| + Left(t, attempts, n) <= 2 * n
      decreases Left(t, attempts, n)
    {
      if started == 0 && |t.dialled| < n {
        DialOk(t, attempts, n);
        attempts, t := attempts + [|t.dialled|], Dialled(t);
        started := 1;
      } else if started == 0 && attempts == [] {
        return AllFailed, t;
      }
      var ended;
      ended, t, attempts, started := Await(n, choose(|t.waits|), t, attempts, started);
      if ended.Some? {
        return ended.value, t;
      }
    }
  }
}

/**
 The concurrent dispatcher of a runner (internal/runner/dispatch.go).

 One loop launches workers and counts them; each worker sends one completion into a buffered
 channel when it ends, at any time. A step is one thing the loop or one worker does, so a run is
 any interleaving. After the loop returns it waits for the workers, which only sends can delay.
 */
module Dispatch {
  import opened Prelude

  const CHANNEL_CAPACITY := 6

  datatype Kind = ConfigValidate | Connectivity | DownloadThroughput

  datatype Counts = Counts(config: int, connectivity: int, download: int)

  datatype Completion = Completion(kind: Kind, unsafeCleanup: bool)

  /** active is the loop's map; running are workers still executing; completed is the channel. */
  datatype State = State(active: Counts, running: Counts, completed: seq<Completion>, returned: bool)

  datatype Event =
    | Finish(kind: Kind, unsafeCleanup: bool)
    | Take
    | Leased(kind: Kind)
    | UnknownLease
    | Leave

  function Get(c: Counts, k: Kind): int {
    match k
    case ConfigValidate => c.config
    case Connectivity => c.connectivity
    case DownloadThroughput => c.download
  }

  function Add(c: Counts, k: Kind, n: int): Counts {
    match k
    case ConfigValidate => c.(config := c.config + n)
    case Connectivity => c.(connectivity := c.connectivity + n)
    case DownloadThroughput => c.(download := c.download + n)
  }

  function Total(c: Counts): int { c.config + c.connectivity + c.download }

  /** capacity with networking enabled. */
  const CAPACITY := Counts(1, 4, 1)

  /** The slots asked for: what is free, and nothing of the other mode. */
  function Slots(active: Counts): Counts {
    Counts(if active.connectivity + active.download > 0 then 0 else CAPACITY.config - active.config,
           if active.config > 0 then 0 else CAPACITY.connectivity - active.connectivity,
           if active.config > 0 then 0 else CAPACITY.download - active.download)
  }

  // ---- Steps ----

  predicate Enabled(s: State, e: Event) {
    match e
    case Finish(k, _) => Get(s.running, k) > 0 && |s.completed| < CHANNEL_CAPACITY
    case Take => !s.returned && s.completed != []
    case Leased(_) => !s.returned && Total(Slots(s.active)) > 0
    case UnknownLease => !s.returned && Total(Slots(s.active)) > 0
    case Leave => !s.returned
  }

  function Step(s: State, e: Event): State
    requires Enabled(s, e)
  {
    match e
    case Finish(k, unsafeCleanup) =>
      s.(running := Add(s.running, k, -1), completed := s.completed + [Completion(k, unsafeCleanup)])
    case Take =>
      s.(active := Add(s.active, s.completed[0].kind, -1), completed := s.completed[1..],
          returned := s.completed[0].unsafeCleanup)
    case Leased(k) =>
      if Get(Slots(s.active), k) <= 0 then s.(returned := true)
      else s.(active := Add(s.active, k, 1), running := Add(s.running, k, 1))
    case UnknownLease => s.(returned := true)
    case Leave => s.(returned := true)
  }

  // ---- What every interleaving keeps ----

  /** Completions of one kind in the channel. */
  function Waiting(completed: seq<Completion>, k: Kind): (n: nat)
    ensures n <= |completed|
  {
    if completed == [] then 0 else (if completed[0].kind == k then 1 else 0) + Waiting(completed[1..], k)
  }

  lemma {:induction false} WaitingAppend(completed: seq<Completion>, c: Completion, k: Kind)
    ensures Waiting(completed + [c], k) == Waiting(completed, k) + if c.kind == k then 1 else 0
  {
    if completed == [] {
      assert completed + [c] == [c];
      assert [c][1..] == [];
    } else {
      assert (completed + [c])[1..] == completed[1..] + [c];
      WaitingAppend(completed[1..], c, k);
    }
  }

  lemma {:induction false} WaitingTotal(completed: seq<Completion>)
    ensures |completed| == Waiting(completed, ConfigValidate) + Waiting(completed, Connectivity)
                           + Waiting(completed, DownloadThroughput)
  {
    if completed != [] { WaitingTotal(completed[1..]); }
  }

  ghost predicate BalancedAt(s: State, k: Kind) {
    Get(s.running, k) >= 0 && Get(s.active, k) == Get(s.running, k) + Waiting(s.completed, k)
  }

  /** Counted work is work running plus completions not taken yet, kind by kind. */
  ghost predicate Balanced(s: State) {
    BalancedAt(s, ConfigValidate) && BalancedAt(s, Connectivity) && BalancedAt(s, DownloadThroughput)
  }

  ghost predicate WithinCapacity(a: Counts) {
    0 <= a.config <= 1 && 0 <= a.connectivity <= 4 && 0 <= a.download <= 1
  }

  /** Offline and online jobs never overlap. */
  ghost predicate OneMode(a: Counts) { a.config == 0 || (a.connectivity == 0 && a.download == 0) }

  ghost predicate Inv(s: State) { Balanced(s) && WithinCapacity(s.active) && OneMode(s.active) }

  const START := State(Counts(0, 0, 0), Counts(0, 0, 0), [], false)

  lemma {:induction false} StartInv()
    ensures Inv(START)
  {
  }

  lemma {:induction false} StepBalanced(s: State, e: Event, k: Kind)
    requires BalancedAt(s, k) && Enabled(s, e)
    ensures BalancedAt(Step(s, e), k)
  {
    if e.Finish? { WaitingAppend(s.completed, Completion(e.kind, e.unsafeCleanup), k); }
  }

  lemma {:induction false} StepModes(s: State, e: Event)
    requires Balanced(s) && WithinCapacity(s.active) && OneMode(s.active) && Enabled(s, e)
    ensures WithinCapacity(Step(s, e).active) && OneMode(Step(s, e).active)
  {
    if e.Take? { assert Waiting(s.completed, s.completed[0].kind) >= 1; }
  }

  lemma {:induction false} StepInv(s: State, e: Event)
    requires Inv(s) && Enabled(s, e)
    ensures Inv(Step(s, e))
  {
    StepBalanced(s, e, ConfigValidate);
    StepBalanced(s, e, Connectivity);
    StepBalanced(s, e, DownloadThroughput);
    StepModes(s, e);
  }

  /** Requested slots are never negative, and never ask for both modes at once. */
  lemma {:induction false} SlotsSound(s: State)
    requires Inv(s)
    ensures var w := Slots(s.active);
            && w.config >= 0 && w.connectivity >= 0 && w.download >= 0
            && (s.active.config > 0 ==> w.connectivity == 0 && w.download == 0)
            && (s.active.connectivity + s.active.download > 0 ==> w.config == 0)
  {
  }

  /** The channel always has room for every worker still to send. */
  lemma {:induction false} RoomForAll(s: State)
    requires Inv(s)
    ensures |s.completed| + Total(s.running) <= 5 < CHANNEL_CAPACITY
  {
    WaitingTotal(s.completed);
  }

  /** So no worker ever blocks on its completion, also after the loop has returned. */
  lemma {:induction false} SendNeverBlocks(s: State, k: Kind, unsafeCleanup: bool)
    requires Inv(s) && Get(s.running, k) > 0
    ensures Enabled(s, Finish(k, unsafeCleanup))
  {
    RoomForAll(s);
  }

  // ---- Runs ----

  ghost predicate Runs(s: State, es: seq<Event>)
    decreases |es|
  {
    es != [] ==> Enabled(s, es[0]) && Runs(Step(s, es[0]), es[1..])
  }

  ghost function After(s: State, es: seq<Event>): State
    requires Runs(s, es)
    decreases |es|
  {
    if es == [] then s else After(Step(s, es[0]), es[1..])
  }

  lemma {:induction false} RunInv(s: State, es: seq<Event>)
    requires Inv(s) && Runs(s, es)
    ensures Inv(After(s, es))
    decreases |es|
  {
    if es != [] {
      StepInv(s, es[0]);
      RunInv(Step(s, es[0]), es[1..]);
    }
  }

  /** No worker of the state is blocked on its completion. */
  ghost predicate SendsFree(s: State) {
    forall k, u :: Get(s.running, k) > 0 ==> Enabled(s, Finish(k, u))
  }

  lemma {:induction false} SendsAlwaysFree(s: State)
    requires Inv(s)
    ensures SendsFree(s) && |s.completed| + Total(s.running) <= 5
  {
    RoomForAll(s);
    forall k, u | Get(s.running, k) > 0 ensures Enabled(s, Finish(k, u)) { SendNeverBlocks(s, k, u); }
  }

  /** In every interleaving from the start. */
  lemma {:induction false} Always(es: seq<Event>)
    requires Runs(START, es)
    ensures Inv(After(START, es)) && SendsFree(After(START, es))
  {
    StartInv();
    RunInv(START, es);
    SendsAlwaysFree(After(START, es));
  }

  lemma {:induction false} RunsCons(s: State, e: Event, rest: seq<Event>)
    requires Enabled(s, e) && Runs(Step(s, e), rest)
    ensures Runs(s, [e] + rest) && After(s, [e] + rest) == After(Step(s, e), rest)
  {
    assert ([e] + rest)[1..] == rest;
  }

  /** Some running worker can finish. */
  lemma {:induction false} OneFinishes(s: State) returns (e: Event)
    requires Inv(s) && s.returned && Total(s.running) > 0
    ensures e.Finish? && Enabled(s, e) && Inv(Step(s, e)) && Step(s, e).returned
    ensures Total(Step(s, e).running) == Total(s.running) - 1
  {
    var k := if s.running.config > 0 then ConfigValidate else if s.running.connectivity > 0 then Connectivity
        else DownloadThroughput;
    e := Finish(k, false);
    SendNeverBlocks(s, k, false);
    StepInv(s, e);
  }

  lemma {:induction false} NoneRunning(s: State)
    requires Inv(s) && Total(s.running) <= 0
    ensures s.running == Counts(0, 0, 0)
  {
  }

  /** workers.Wait() ends: from any reachable state the workers can all finish, without the loop taking anything. */
  lemma {:induction false} ShutdownCompletes(s: State, n: nat) returns (es: seq<Event>)
    requires Inv(s) && s.returned && Total(s.running) <= n
    ensures Runs(s, es) && After(s, es).running == Counts(0, 0, 0)
    ensures forall i :: 0 <= i < |es| ==> es[i].Finish?
    decreases n
  {
    if Total(s.running) <= 0 {
      NoneRunning(s);
      es := [];
    } else {
      var e := OneFinishes(s);
      var rest := ShutdownCompletes(Step(s, e), n - 1);
      RunsCons(s, e, rest);
      es := [e] + rest;
    }
  }

  // ---- The loop's variables ----

  class Dispatcher {
    var active: Counts
    var completed: seq<Completion>
    ghost var running: Counts
    var returned: bool

    ghost function Abs(): State
      reads this
    {
      State(active, running, completed, returned)
    }

    constructor ()
      ensures Abs() == START
    {
      active, completed, running, returned := Counts(0, 0, 0), [], Counts(0, 0, 0), false;
    }

    /** Receives one completion; an unsafe cleanup ends the loop. */
    method TakeCompletion()
      requires Inv(Abs()) && Enabled(Abs(), Take)
      modifies this
      ensures Abs() == Step(old(Abs()), Take) && Inv(Abs())
    {
      StepInv(Abs(), Take);
      var out := completed[0];
      completed := completed[1..];
      active := Add(active, out.kind, -1);
      returned := out.unsafeCleanup;
    }

    /** The slots of the next lease request, step by step. */
    method AvailableSlots() returns (w: Counts)
      ensures w == Slots(active)
    {
      w := Counts(CAPACITY.config - active.config, CAPACITY.connectivity - active.connectivity,
                  CAPACITY.download - active.download);
      if active.config > 0 { w := w.(connectivity := 0, download := 0); }
      if active.connectivity + active.download > 0 { w := w.(config := 0); }
    }

    /** A granted lease: launched when its kind was asked for, otherwise the loop ends. */
    method Launch(kind: Kind) returns (launched: bool)
      requires Inv(Abs()) && Enabled(Abs(), Leased(kind))
      modifies this
      ensures Abs() == Step(old(Abs()), Leased(kind)) && Inv(Abs()) && (launched <==> !returned)
    {
      StepInv(Abs(), Leased(kind));
      var allowed := AvailableSlots();
      launched := Get(allowed, kind) > 0;
      if !launched { returned := true; return; }
      active := Add(active, kind, 1);
      running := Add(running, kind, 1);
    }
  }
}

/**
 The lease watchdog of a runner (internal/runner/client.go executeLeaseFrom and stopAfter,
 internal/runner/network.go executeNetwork).

 Time is an integer. The heartbeat loop, the timer, the parent context and the clock registration
 run concurrently, so a heartbeat is three steps (send, receive, arm) that other steps may come
 between. The step machine is the specification; the class Guard is the source's variables.
 */
module Lease {
  import opened Prelude

  const SECOND := 1000000000
  const LEASE_DURATION := 30 * SECOND
  const SAFETY_MARGIN := 5 * SECOND

  /** stopReason: 0, 1 and 2. */
  datatype Reason = Running | LeaseLost | ServerCanceled

  datatype Reply =
    | Failed(rejected: bool)
    | Foreign
    | CancelRequested
    | Extended(expires: int)

  /** Where the heartbeat loop is. */
  datatype Phase =
    | Idle
    | Sent(issuedAt: int)
    | Granted(issuedAt: int, expiresAt: int, extension: int, checkedAt: int, used: int)

  /**
   armed is the time the timer fires. issued is when the request was sent that obtained the lease
   now in force, used the clock offset its budget was computed with, and gap the time between reading
   the clock for it and arming the timer.
   */
  datatype State = State(
    now: int, expires: int, offset: int, armed: Option<int>, issued: int, used: int, gap: int,
    phase: Phase, reason: Reason, cancelled: bool)

  datatype Event =
    | Send(at: int)
    | Receive(at: int, reply: Reply)
    | Arm(at: int)
    | Fire(at: int)
    | ParentStop(at: int)
    | Register(at: int, offset: int)

  // ---- The step machine ----

  /** stopAfter: the smaller of the server's and the local budget, both less the margin. */
  function StopAfter(expires: int, issuedAt: int, now: int, offset: int): (d: int)
    ensures now + d <= issuedAt + LEASE_DURATION - SAFETY_MARGIN
    ensures now + offset + d <= expires - SAFETY_MARGIN
    ensures now + d == issuedAt + LEASE_DURATION - SAFETY_MARGIN || now + offset + d == expires - SAFETY_MARGIN
  {
    var remaining := expires - (now + offset) - SAFETY_MARGIN;
    var local := issuedAt + LEASE_DURATION - now - SAFETY_MARGIN;
    if remaining < local then remaining else local
  }

  predicate Acceptable(d: int) { 0 < d <= LEASE_DURATION }

  /** CompareAndSwap(0, why) and stop(). */
  function Stopped(s: State, why: Reason): State {
    s.(reason := if s.reason.Running? then why else s.reason, cancelled := true)
  }

  predicate Enabled(s: State, e: Event, network: bool) {
    && s.now <= e.at
    && (e.Send? ==> s.phase.Idle? && (network ==> !s.cancelled))
    && (e.Receive? ==> s.phase.Sent?)
    && (e.Arm? ==> s.phase.Granted?)
    && (e.Fire? ==> s.armed.Some? && s.armed.value <= e.at)
  }

  function Step(s: State, e: Event, network: bool): State
    requires Enabled(s, e, network)
  {
    var t := s.(now := e.at);
    match e
    case Send(at) => t.(phase := Sent(at))
    case Receive(at, reply) => Received(t, reply, network)
    case Arm(at) =>
      t.(expires := s.phase.expiresAt, armed := Some(at + s.phase.extension), issued := s.phase.issuedAt,
         used := s.phase.used, gap := at - s.phase.checkedAt, phase := Idle)
    case Fire(_) => Stopped(t, LeaseLost).(armed := None)
    case ParentStop(_) => t.(cancelled := true)
    case Register(_, offset) => t.(offset := offset)
  }

  function Received(s: State, reply: Reply, network: bool): State
    requires s.phase.Sent?
  {
    var idle := s.(phase := Idle);
    match reply
    case Failed(rejected) => if rejected then Stopped(idle, LeaseLost) else idle
    case Foreign => Stopped(idle, LeaseLost)
    case CancelRequested => Stopped(idle, ServerCanceled)
    case Extended(expires) =>
      var d := StopAfter(expires, s.phase.issuedAt, s.now, s.offset);
      if (!network && s.cancelled) || expires <= s.expires || !Acceptable(d) then Stopped(idle, LeaseLost)
      else s.(phase := Granted(s.phase.issuedAt, expires, d, s.now, s.offset))
  }

  /** The start of an execution; refused when the budget of the first lease is out of range. */
  function Started(issuedAt: int, checkedAt: int, armedAt: int, expires: int, offset: int): Option<State> {
    var d := StopAfter(expires, issuedAt, checkedAt, offset);
    if !Acceptable(d) then None
    else
      Some(State(armedAt, expires, offset, Some(armedAt + d), issuedAt, offset, armedAt - checkedAt, Idle, Running,
                 false))
  }

  // ---- What every step keeps ----

  /** The timer fires no later than 25 s after the request in force was sent, plus the arming gap. */
  ghost predicate DeadlineOK(s: State) {
    s.armed.Some? ==> s.armed.value <= s.issued + LEASE_DURATION - SAFETY_MARGIN + s.gap
  }

  ghost predicate GrantOK(s: State) {
    s.phase.Granted? ==>
      && Acceptable(s.phase.extension) && s.phase.checkedAt <= s.now && s.expires < s.phase.expiresAt
      && s.phase.checkedAt + s.phase.extension <= s.phase.issuedAt + LEASE_DURATION - SAFETY_MARGIN
  }

  ghost predicate Inv(s: State) {
    && DeadlineOK(s) && GrantOK(s) && 0 <= s.gap
    && (s.phase.Sent? ==> s.phase.issuedAt <= s.now)
    && (!s.cancelled ==> s.armed.Some? && s.reason.Running?)
  }

  lemma {:induction false} StartedInv(issuedAt: int, checkedAt: int, armedAt: int, expires: int, offset: int)
    requires issuedAt <= checkedAt <= armedAt && Started(issuedAt, checkedAt, armedAt, expires, offset).Some?
    ensures Inv(Started(issuedAt, checkedAt, armedAt, expires, offset).value)
  {
    assert checkedAt + StopAfter(expires, issuedAt, checkedAt, offset) <= issuedAt + LEASE_DURATION - SAFETY_MARGIN;
  }

  lemma {:induction false} StepInv(s: State, e: Event, network: bool)
    requires Inv(s) && Enabled(s, e, network)
    ensures Inv(Step(s, e, network))
  {
    if e.Receive? && e.reply.Extended? {
      assert e.at + StopAfter(e.reply.expires, s.phase.issuedAt, e.at, s.offset) <=
             s.phase.issuedAt + LEASE_DURATION - SAFETY_MARGIN;
    }
  }

  /** The first cause stays, a stopped run stays stopped, and the lease in force only moves forward. */
  ghost predicate Later(s: State, t: State) {
    && s.now <= t.now && s.expires <= t.expires
    && (s.cancelled ==> t.cancelled)
    && (!s.reason.Running? ==> t.reason == s.reason)
  }

  lemma {:induction false} StepLater(s: State, e: Event, network: bool)
    requires Inv(s) && Enabled(s, e, network)
    ensures Later(s, Step(s, e, network))
  {
  }

  // ---- Whole runs ----

  ghost predicate Runs(s: State, es: seq<Event>, network: bool)
    decreases |es|
  {
    es != [] ==> Enabled(s, es[0], network) && Runs(Step(s, es[0], network), es[1..], network)
  }

  ghost function After(s: State, es: seq<Event>, network: bool): State
    requires Runs(s, es, network)
    decreases |es|
  {
    if es == [] then s else After(Step(s, es[0], network), es[1..], network)
  }

  lemma {:induction false} RunInv(s: State, es: seq<Event>, network: bool)
    requires Inv(s) && Runs(s, es, network)
    ensures Inv(After(s, es, network)) && Later(s, After(s, es, network))
    decreases |es|
  {
    if es != [] {
      StepInv(s, es[0], network);
      StepLater(s, es[0], network);
      RunInv(Step(s, es[0], network), es[1..], network);
    }
  }

  /**
   In every run of grants, lost, foreign and successful heartbeats: while the run is not stopped the
   timer is armed, it fires at most 25 s (plus the arming gap) after the request that obtained the
   lease in force, and a 30 s lease counted from no earlier than that request still has 5 s left
   (less the gap) when it fires.
   */
  lemma {:induction false} StopsInTime(issuedAt: int, checkedAt: int, armedAt: int, expires: int, offset: int,
                                       es: seq<Event>, network: bool, leaseEnd: int)
    requires issuedAt <= checkedAt <= armedAt && Started(issuedAt, checkedAt, armedAt, expires, offset).Some?
    requires Runs(Started(issuedAt, checkedAt, armedAt, expires, offset).value, es, network)
    ensures var t := After(Started(issuedAt, checkedAt, armedAt, expires, offset).value, es, network);
            && (!t.cancelled ==> t.armed.Some?)
            && (t.armed.Some? ==> t.armed.value <= t.issued + 25 * SECOND + t.gap)
            && (t.armed.Some? && t.issued + LEASE_DURATION <= leaseEnd ==>
                leaseEnd - t.armed.value >= SAFETY_MARGIN - t.gap)
  {
    StartedInv(issuedAt, checkedAt, armedAt, expires, offset);
    RunInv(Started(issuedAt, checkedAt, armedAt, expires, offset).value, es, network);
  }

  /** Whatever happens after the first stop, its cause is the one reported and the run never resumes. */
  lemma {:induction false} NoRevival(s: State, es: seq<Event>, more: seq<Event>, network: bool)
    requires Inv(s) && Runs(s, es, network) && Runs(After(s, es, network), more, network)
    ensures var t, u := After(s, es, network), After(After(s, es, network), more, network);
            (t.cancelled ==> u.cancelled) && (!t.reason.Running? ==> u.reason == t.reason)
  {
    RunInv(s, es, network);
    RunInv(After(s, es, network), more, network);
  }

  /** The bound of 25 s is exact, and the arming gap adds to it: the budget is read before the timer is set. */
  lemma {:induction false} GapAdds(gap: nat)
    ensures var s := Started(0, 0, gap, 40 * SECOND, 0);
            s.Some? && s.value.armed == Some(25 * SECOND + gap) && s.value.issued == 0
  {
  }

  /** By how much the server's expiry, in local time, comes before 30 s after the request; 0 if it does not. */
  function Slack(expires: int, issuedAt: int, offset: int): nat {
    var early := issuedAt + LEASE_DURATION - (expires - offset);
    if early > 0 then early else 0
  }

  lemma {:induction false} SlackIs(expires: int, issuedAt: int, now: int, offset: int)
    ensures now + StopAfter(expires, issuedAt, now, offset) == issuedAt + 25 * SECOND - Slack(expires, issuedAt, offset)
  {
  }

  /** At the start, the deadline is within 25 s of the request if and only if the gap is within the slack. */
  lemma {:induction false} StartBoundIff(issuedAt: int, checkedAt: int, armedAt: int, expires: int, offset: int)
    requires Started(issuedAt, checkedAt, armedAt, expires, offset).Some?
    ensures var s := Started(issuedAt, checkedAt, armedAt, expires, offset).value;
            s.armed.value <= s.issued + 25 * SECOND <==> s.gap <= Slack(expires, issuedAt, offset)
  {
    SlackIs(expires, issuedAt, checkedAt, offset);
  }

  /**
   The budget of a grant is what StopAfter computes, and the timer is set exactly the slack short of 25 s after
   the request, plus the gap.
   */
  ghost predicate Budgeted(s: State) {
    && (s.phase.Granted? ==>
          s.phase.extension == StopAfter(s.phase.expiresAt, s.phase.issuedAt, s.phase.checkedAt, s.phase.used))
    && (s.armed.Some? ==>
          s.armed.value == s.issued + 25 * SECOND - Slack(s.expires, s.issued, s.used) + s.gap)
  }

  lemma {:induction false} StepBudgeted(s: State, e: Event, network: bool)
    requires Budgeted(s) && Enabled(s, e, network)
    ensures Budgeted(Step(s, e, network))
  {
    if e.Arm? { SlackIs(s.phase.expiresAt, s.phase.issuedAt, s.phase.checkedAt, s.phase.used); }
  }

  /** The offsets in use are the first one and those registered since. */
  ghost predicate Offsets(s: State, offsets: set<int>) {
    s.offset in offsets && s.used in offsets && (s.phase.Granted? ==> s.phase.used in offsets)
  }

  ghost function Registered(es: seq<Event>): set<int> {
    set i | 0 <= i < |es| && es[i].Register? :: es[i].offset
  }

  lemma {:induction false} RunBudgeted(s: State, es: seq<Event>, network: bool, offsets: set<int>)
    requires Budgeted(s) && Offsets(s, offsets) && Runs(s, es, network) && Registered(es) <= offsets
    ensures Budgeted(After(s, es, network)) && Offsets(After(s, es, network), offsets)
    decreases |es|
  {
    if es != [] {
      StepBudgeted(s, es[0], network);
      assert es[0].Register? ==> es[0].offset in Registered(es);
      assert forall i :: 0 <= i < |es[1..]| ==> es[1..][i] == es[i + 1];
      RunBudgeted(Step(s, es[0], network), es[1..], network, offsets);
    }
  }

  /**
   In every run, after whatever extensions and registrations: the deadline is within 25 s of the request in force
   if and only if the arming gap is within the slack its expiry leaves, under an offset the run has had.
   */
  lemma {:induction false} DeadlineIff(issuedAt: int, checkedAt: int, armedAt: int, expires: int, offset: int,
                                       es: seq<Event>, network: bool)
    requires Started(issuedAt, checkedAt, armedAt, expires, offset).Some?
    requires Runs(Started(issuedAt, checkedAt, armedAt, expires, offset).value, es, network)
    ensures var t := After(Started(issuedAt, checkedAt, armedAt, expires, offset).value, es, network);
            && t.used in {offset} + Registered(es)
            && (t.armed.Some? ==>
                  (t.armed.value <= t.issued + 25 * SECOND <==> t.gap <= Slack(t.expires, t.issued, t.used)))
  {
    SlackIs(expires, issuedAt, checkedAt, offset);
    RunBudgeted(Started(issuedAt, checkedAt, armedAt, expires, offset).value, es, network, {offset} + Registered(es));
  }

  /** A timer armed without delay meets the 25 s bound as it stands. */
  lemma {:induction false} NoGapNoExcess(s: State)
    requires Inv(s) && s.armed.Some? && s.gap == 0
    ensures s.armed.value <= s.issued + 25 * SECOND
  {
  }

  /**
   register: the offset is taken from before the request was sent, so it is never below the true
   difference of the clocks, and the timer fires before the server's own expiry less the margin.
   */
  lemma {:induction false} OffsetConservative(difference: int, before: int, served: int, expires: int,
                                              issuedAt: int, now: int)
    requires before <= served
    ensures var offset := (served + difference) - before;
            now + StopAfter(expires, issuedAt, now, offset) + difference <= expires - SAFETY_MARGIN
  {
    var offset := (served + difference) - before;
    assert now + offset + StopAfter(expires, issuedAt, now, offset) <= expires - SAFETY_MARGIN;
  }

  /** In server time, the timer and a granted extension end 5 s before the expiry they are for, plus the arming gap. */
  ghost predicate ServerSafe(s: State, difference: int) {
    && difference <= s.offset
    && (s.armed.Some? ==> s.armed.value + difference <= s.expires - SAFETY_MARGIN + s.gap)
    && (s.phase.Granted? ==> s.phase.checkedAt + s.phase.extension + difference <= s.phase.expiresAt - SAFETY_MARGIN)
  }

  /** Every registration overestimates the difference of the clocks, as the offset of register does. */
  ghost predicate Conservative(es: seq<Event>, difference: int) {
    forall i :: 0 <= i < |es| && es[i].Register? ==> difference <= es[i].offset
  }

  lemma {:induction false} StepServerSafe(s: State, e: Event, network: bool, difference: int)
    requires Inv(s) && ServerSafe(s, difference) && Enabled(s, e, network) && (e.Register? ==> difference <= e.offset)
    ensures ServerSafe(Step(s, e, network), difference)
  {
    if e.Receive? && e.reply.Extended? {
      assert e.at + s.offset + StopAfter(e.reply.expires, s.phase.issuedAt, e.at, s.offset) <=
             e.reply.expires - SAFETY_MARGIN;
    }
  }

  lemma {:induction false} RunServerSafe(s: State, es: seq<Event>, network: bool, difference: int)
    requires Inv(s) && ServerSafe(s, difference) && Runs(s, es, network) && Conservative(es, difference)
    ensures ServerSafe(After(s, es, network), difference)
    decreases |es|
  {
    if es != [] {
      StepServerSafe(s, es[0], network, difference);
      StepInv(s, es[0], network);
      assert forall i :: 0 <= i < |es[1..]| ==> es[1..][i] == es[i + 1];
      RunServerSafe(Step(s, es[0], network), es[1..], network, difference);
    }
  }

  /**
   In every run with registered offsets, the timer fires 5 s, less the arming gap, before the lease expires
   at the server.
   */
  lemma {:induction false} StopsBeforeServer(issuedAt: int, checkedAt: int, armedAt: int, expires: int, offset: int,
                                             es: seq<Event>, network: bool, difference: int)
    requires issuedAt <= checkedAt <= armedAt && Started(issuedAt, checkedAt, armedAt, expires, offset).Some?
    requires difference <= offset && Conservative(es, difference)
    requires Runs(Started(issuedAt, checkedAt, armedAt, expires, offset).value, es, network)
    ensures var t := After(Started(issuedAt, checkedAt, armedAt, expires, offset).value, es, network);
            t.armed.Some? ==> t.armed.value + difference <= t.expires - SAFETY_MARGIN + t.gap
  {
    assert checkedAt + offset + StopAfter(expires, issuedAt, checkedAt, offset) <= expires - SAFETY_MARGIN;
    StartedInv(issuedAt, checkedAt, armedAt, expires, offset);
    RunServerSafe(Started(issuedAt, checkedAt, armedAt, expires, offset).value, es, network, difference);
  }

  // ---- The variables of the source ----

  /** lease.LeaseExpiresAt, the guard timer, stopReason and the context of one execution. */
  class Guard {
    const network: bool
    var state: State

    constructor (network: bool, state: State)
      requires Inv(state)
      ensures this.network == network && this.state == state
    {
      this.network := network;
      this.state := state;
    }

    method Halt(why: Reason)
      modifies this
      ensures state == Stopped(old(state), why)
    {
      if state.reason.Running? { state := state.(reason := why); }
      state := state.(cancelled := true);
    }

    /** One turn of the heartbeat loop, up to arming; the reply is the environment's. */
    method Heartbeat(receivedAt: int, reply: Reply) returns (extend: bool)
      requires Inv(state) && Enabled(state, Receive(receivedAt, reply), network)
      modifies this
      ensures state == Step(old(state), Receive(receivedAt, reply), network) && Inv(state)
      ensures extend <==> state.phase.Granted?
    {
      StepInv(state, Receive(receivedAt, reply), network);
      var issuedAt := state.phase.issuedAt;
      state := state.(now := receivedAt, phase := Idle);
      extend := false;
      match reply {
        case Failed(rejected) =>
          if rejected { Halt(LeaseLost); }
        case Foreign =>
          Halt(LeaseLost);
        case CancelRequested =>
          Halt(ServerCanceled);
        case Extended(expires) =>
          var extension := StopAfter(expires, issuedAt, receivedAt, state.offset);
          if (!network && state.cancelled) || expires <= state.expires || extension <= 0 || extension > LEASE_DURATION {
            Halt(LeaseLost);
          } else {
            state := state.(phase := Granted(issuedAt, expires, extension, receivedAt, state.offset));
            extend := true;
          }
      }
    }

    /** lease.LeaseExpiresAt = ...; guard.Reset(extension). */
    method Reset(at: int)
      requires Inv(state) && Enabled(state, Arm(at), network)
      modifies this
      ensures state == Step(old(state), Arm(at), network) && Inv(state)
    {
      StepInv(state, Arm(at), network);
      var g := state.phase;
      state := state.(now := at, expires := g.expiresAt, armed := Some(at + g.extension), issued := g.issuedAt,
                      used := g.used, gap := at - g.checkedAt, phase := Idle);
    }

    /** The function of the timer. */
    method Expire(at: int)
      requires Inv(state) && Enabled(state, Fire(at), network)
      modifies this
      ensures state == Step(old(state), Fire(at), network) && Inv(state)
      ensures state.cancelled && !state.reason.Running?
    {
      StepInv(state, Fire(at), network);
      state := state.(now := at, armed := None);
      Halt(LeaseLost);
    }
  }
}

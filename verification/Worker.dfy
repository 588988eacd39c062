/**
 The API worker's handling of one lease (internal/jobs/worker.go process and renew).

 process runs the handler while renew keeps the lease alive; both can be overtaken by the parent
 context. The repository, the handler and the clock are the environment, so its replies are part of
 the steps and a run is any interleaving of the two threads with the parent.
 */
module Worker {
  import opened Prelude

  datatype JobState = Succeeded | Failed | Canceled | TimedOut

  /** context.Cause(ctx): set once, by the renewer or by the parent. */
  datatype Cause = NoCause | CauseCanceled | CauseLeaseLost | CauseParent

  /** What the handler, or the event before it, returned. */
  datatype Outcome = HandlerOk(state: JobState, commits: bool) | HandlerErr(invalidInput: bool)

  /** One CompleteTx call: the state reported and whether a commit callback was passed. */
  datatype Call = Call(state: JobState, commit: bool)

  datatype Reply = Accepted | RefusedCanceled | RefusedOther

  datatype End = Settled | ParentStopped | LeaseWasLost | Rejected

  datatype Main =
    | Announcing
    | Handling
    | Joining(outcome: Outcome)
    | CheckingParent(outcome: Outcome)
    | CheckingCause(outcome: Outcome)
    | Completing(outcome: Outcome, call: Call)
    | Recompleting(outcome: Outcome)
    | Returned(end: End)

  datatype Renewer = Selecting | Beating | Stopped

  datatype Beat = BeatFailed | BeatCanceled | BeatOk

  datatype State = State(main: Main, renewer: Renewer, doneClosed: bool, parentDone: bool, cause: Cause,
                         calls: seq<Call>)

  datatype Event =
    | Announced(ok: bool, invalidInput: bool)
    | Handled(outcome: Outcome)
    | Joined
    | ParentChecked
    | CauseChecked
    | Completed(reply: Reply)
    | ParentCancel
    | SawDone
    | SawCancel
    | LeaseExpired
    | Ticked
    | Beaten(beat: Beat)

  const START := State(Announcing, Selecting, false, false, NoCause, [])

  // ---- Steps ----

  /** cancel(cause): the first cause wins. */
  function Cancelled(s: State, cause: Cause): State { if s.cause.NoCause? then s.(cause := cause) else s }

  /** What is reported, given the cause recorded when the renewer has stopped; None: the lease was lost. */
  function Verdict(cause: Cause, outcome: Outcome): Option<Call> {
    match cause
    case CauseCanceled => Some(Call(Canceled, false))
    case CauseLeaseLost => None
    case CauseParent => None
    case NoCause => Some(if outcome.HandlerErr? then Call(Failed, false) else Call(outcome.state, outcome.commits))
  }

  function Ended(reply: Reply): End { if reply.Accepted? then Settled else Rejected }

  predicate Enabled(s: State, e: Event) {
    match e
    case Announced(_, _) => s.main.Announcing?
    case Handled(_) => s.main.Handling?
    case Joined => s.main.Joining? && s.renewer.Stopped?
    case ParentChecked => s.main.CheckingParent?
    case CauseChecked => s.main.CheckingCause?
    case Completed(_) => s.main.Completing? || s.main.Recompleting?
    case ParentCancel => !s.parentDone
    case SawDone => s.renewer.Selecting? && s.doneClosed
    case SawCancel => s.renewer.Selecting? && !s.cause.NoCause?
    case LeaseExpired => s.renewer.Selecting?
    case Ticked => s.renewer.Selecting?
    case Beaten(_) => s.renewer.Beating?
  }

  function Step(s: State, e: Event): State
    requires Enabled(s, e)
  {
    match e
    case Announced(ok, invalidInput) =>
      if ok then s.(main := Handling) else s.(main := Joining(HandlerErr(invalidInput)), doneClosed := true)
    case Handled(outcome) => s.(main := Joining(outcome), doneClosed := true)
    case Joined => s.(main := CheckingParent(s.main.outcome))
    case ParentChecked => s.(main := if s.parentDone then Returned(ParentStopped) else CheckingCause(s.main.outcome))
    case CauseChecked =>
      var v := Verdict(s.cause, s.main.outcome);
      s.(main := if v.None? then Returned(LeaseWasLost) else Completing(s.main.outcome, v.value))
    case Completed(reply) => Complete(s, reply)
    case ParentCancel => Cancelled(s, CauseParent).(parentDone := true)
    case SawDone => s.(renewer := Stopped)
    case SawCancel => s.(renewer := Stopped)
    case LeaseExpired => Cancelled(s, CauseLeaseLost).(renewer := Stopped)
    case Ticked => s.(renewer := Beating)
    case Beaten(beat) =>
      match beat
      case BeatFailed => Cancelled(s, CauseLeaseLost).(renewer := Stopped)
      case BeatCanceled => Cancelled(s, CauseCanceled).(renewer := Stopped)
      case BeatOk => s.(renewer := Selecting)
  }

  /** CompleteTx; a cancel that won in between is answered by a plain Canceled. */
  function Complete(s: State, reply: Reply): State
    requires s.main.Completing? || s.main.Recompleting?
  {
    if s.main.Completing? then
      var t := s.(calls := s.calls + [s.main.call]);
      if reply.RefusedCanceled? then t.(main := Recompleting(s.main.outcome)) else t.(main := Returned(Ended(reply)))
    else
      s.(calls := s.calls + [Call(Canceled, false)], main := Returned(Ended(reply)))
  }

  // ---- What every interleaving keeps ----

  predicate Early(m: Main) { m.Announcing? || m.Handling? || m.Joining? || m.CheckingParent? || m.CheckingCause? }

  ghost predicate Inv(s: State) {
    && (s.main.Announcing? || s.main.Handling? <==> !s.doneClosed)
    && (!s.main.Announcing? && !s.main.Handling? && !s.main.Joining? ==> s.renewer.Stopped?)
    && (Early(s.main) || s.main.Completing? ==> s.calls == [])
    && (s.main.Completing? ==> Verdicted(s.cause, s.main.outcome, s.main.call))
    && (s.main.Recompleting? ==> |s.calls| == 1 && Verdicted(s.cause, s.main.outcome, s.calls[0]))
    && (s.main.Returned? ==> CallsOK(s))
    && (s.parentDone ==> !s.cause.NoCause?)
  }

  /** The call fits the outcome, given what the renewer had recorded. */
  ghost predicate Verdicted(cause: Cause, outcome: Outcome, call: Call) {
    if cause.CauseCanceled? then call == Call(Canceled, false)
    else if cause.CauseLeaseLost? then false
    else if outcome.HandlerErr? then call == Call(Failed, false)
    else call == Call(outcome.state, outcome.commits)
  }

  ghost predicate CallsOK(s: State)
    requires s.main.Returned?
  {
    match s.main.end
    case ParentStopped => s.calls == []
    case LeaseWasLost => s.calls == []
    case _ =>
      && 1 <= |s.calls| <= 2 && !s.cause.CauseLeaseLost?
      && (s.cause.CauseCanceled? ==> s.calls[0] == Call(Canceled, false))
      && (|s.calls| == 2 ==> s.calls[1] == Call(Canceled, false))
  }

  lemma {:induction false} StepInv(s: State, e: Event)
    requires Inv(s) && Enabled(s, e)
    ensures Inv(Step(s, e))
  {
  }

  // ---- Runs ----

  ghost predicate Runs(s: State, es: seq<Event>)
    decreases |es|
  {
    es != [] ==> Enabled(s, es[0]) && Runs(Step(s, es[0]), es[1..])
  }

  ghost function After(s: State, es: seq<Event>): State
    requires Runs(s, es)
    decreases |es|
  {
    if es == [] then s else After(Step(s, es[0]), es[1..])
  }

  lemma {:induction false} RunInv(s: State, es: seq<Event>)
    requires Inv(s) && Runs(s, es)
    ensures Inv(After(s, es))
    decreases |es|
  {
    if es != [] {
      StepInv(s, es[0]);
      RunInv(Step(s, es[0]), es[1..]);
    }
  }

  // ---- Commits ----

  ghost predicate AllPlain(calls: seq<Call>) { forall i :: 0 <= i < |calls| ==> !calls[i].commit }

  /** No commit has been passed and none can be passed any more. */
  ghost predicate CommitFree(s: State) {
    && AllPlain(s.calls)
    && (Early(s.main) ==> !s.cause.NoCause?)
    && (s.main.Completing? ==> !s.main.call.commit)
  }

  lemma {:induction false} CommitFreeRun(s: State, es: seq<Event>)
    requires Inv(s) && CommitFree(s) && Runs(s, es)
    ensures AllPlain(After(s, es).calls)
    decreases |es|
  {
    if es != [] {
      StepInv(s, es[0]);
      assert CommitFree(Step(s, es[0]));
      CommitFreeRun(Step(s, es[0]), es[1..]);
    }
  }

  /** A step by which the renewer records a cancellation or a lost lease. */
  predicate Noisy(e: Event) { e.LeaseExpired? || (e.Beaten? && !e.beat.BeatOk?) }

  ghost predicate Quiet(es: seq<Event>) { forall i :: 0 <= i < |es| ==> !Noisy(es[i]) }

  lemma {:induction false} QuietCons(e: Event, es: seq<Event>)
    requires !Noisy(e) && Quiet(es)
    ensures Quiet([e] + es)
  {
  }

  /** A stopped renewer records nothing more. */
  lemma {:induction false} StoppedQuiet(s: State, es: seq<Event>)
    requires s.renewer.Stopped? && Runs(s, es)
    ensures Quiet(es)
    decreases |es|
  {
    if es != [] {
      StoppedQuiet(Step(s, es[0]), es[1..]);
      assert es == [es[0]] + es[1..];
    }
  }

  lemma {:induction false} NoisyFrees(s: State, es: seq<Event>)
    requires Inv(s) && Early(s.main) && Runs(s, es) && es != [] && Noisy(es[0])
    ensures AllPlain(After(s, es).calls)
  {
    StepInv(s, es[0]);
    CommitFreeRun(Step(s, es[0]), es[1..]);
  }

  /** A commit is passed only in a run in which the renewer recorded nothing. */
  lemma {:induction false} CommitNeedsQuiet(s: State, es: seq<Event>)
    requires Inv(s) && Early(s.main) && Runs(s, es) && !AllPlain(After(s, es).calls)
    ensures Quiet(es)
    decreases |es|
  {
    if es != [] {
      if Noisy(es[0]) {
        NoisyFrees(s, es);
      } else {
        var t := Step(s, es[0]);
        StepInv(s, es[0]);
        if Early(t.main) { CommitNeedsQuiet(t, es[1..]); } else { StoppedQuiet(t, es[1..]); }
        assert es == [es[0]] + es[1..];
        QuietCons(es[0], es[1..]);
      }
    }
  }

  /** The handler succeeded and asked for a commit. */
  predicate Success(e: Event) { e.Handled? && e.outcome.HandlerOk? && e.outcome.commits }

  ghost predicate HadSuccess(es: seq<Event>) { exists i :: 0 <= i < |es| && Success(es[i]) }

  lemma {:induction false} SuccessCons(es: seq<Event>)
    requires es != [] && (Success(es[0]) || HadSuccess(es[1..]))
    ensures HadSuccess(es)
  {
    if !Success(es[0]) {
      var i :| 0 <= i < |es[1..]| && Success(es[1..][i]);
      assert es[i + 1] == es[1..][i];
    }
  }

  predicate Knows(m: Main) { m.Joining? || m.CheckingParent? || m.CheckingCause? || m.Completing? || m.Recompleting? }

  /** Without a successful handler no commit can follow. */
  ghost predicate NoSuccess(s: State) {
    && AllPlain(s.calls) && !s.main.Announcing? && !s.main.Handling?
    && (Knows(s.main) && !s.main.Recompleting? ==> !(s.main.outcome.HandlerOk? && s.main.outcome.commits))
    && (s.main.Completing? ==> !s.main.call.commit)
  }

  lemma {:induction false} NoSuccessRun(s: State, es: seq<Event>)
    requires NoSuccess(s) && Runs(s, es)
    ensures AllPlain(After(s, es).calls)
    decreases |es|
  {
    if es != [] {
      assert NoSuccess(Step(s, es[0]));
      NoSuccessRun(Step(s, es[0]), es[1..]);
    }
  }

  lemma {:induction false} CommitNeedsSuccess(s: State, es: seq<Event>)
    requires Inv(s) && (s.main.Announcing? || s.main.Handling?) && Runs(s, es) && !AllPlain(After(s, es).calls)
    ensures HadSuccess(es)
    decreases |es|
  {
    if es != [] {
      var t := Step(s, es[0]);
      StepInv(s, es[0]);
      if t.main.Announcing? || t.main.Handling? {
        CommitNeedsSuccess(t, es[1..]);
      } else if !Success(es[0]) {
        NoSuccessRun(t, es[1..]);
      }
      SuccessCons(es);
    }
  }

  /**
   Every run: the commit callback is passed at most once, in the first completion, and only when
   the handler succeeded and the renewer recorded neither a cancellation nor a lost lease.
   */
  lemma {:induction false} CommitSafe(es: seq<Event>)
    requires Runs(START, es)
    ensures var calls := After(START, es).calls;
            && |calls| <= 2
            && (forall i :: 0 <= i < |calls| && calls[i].commit ==> i == 0 && HadSuccess(es) && Quiet(es))
  {
    RunInv(START, es);
    if !AllPlain(After(START, es).calls) {
      CommitNeedsSuccess(START, es);
      CommitNeedsQuiet(START, es);
    }
  }

  // ---- Late cancels and shutdown ----

  /** A second completion reports Canceled without a callback; a lost lease completes nothing. */
  lemma {:induction false} LateCancel(es: seq<Event>)
    requires Runs(START, es)
    ensures var s := After(START, es);
            && (|s.calls| == 2 ==> s.calls[1] == Call(Canceled, false))
            && (s.main == Returned(LeaseWasLost) || s.main == Returned(ParentStopped) ==> s.calls == [])
            && (s.main.Returned? && s.cause.CauseCanceled? && s.calls != [] ==> s.calls[0] == Call(Canceled, false))
  {
    RunInv(START, es);
  }

  predicate BeforeParentCheck(m: Main) { m.Announcing? || m.Handling? || m.Joining? || m.CheckingParent? }

  /** The parent stopped before it was looked at: nothing is completed. */
  lemma {:induction false} ParentStopsAll(s: State, es: seq<Event>)
    requires Inv(s) && Runs(s, es)
    requires (s.parentDone && BeforeParentCheck(s.main)) || s.main == Returned(ParentStopped)
    ensures After(s, es).calls == []
    decreases |es|
  {
    if es != [] {
      StepInv(s, es[0]);
      ParentStopsAll(Step(s, es[0]), es[1..]);
    }
  }

  lemma {:induction false} OneStep(s: State, e: Event)
    requires Enabled(s, e)
    ensures Runs(s, [e]) && After(s, [e]) == Step(s, e)
  {
    assert [e][1..] == [];
  }

  /** Once the handler is done the renewer can stop, within two steps and whatever a heartbeat under way replies. */
  lemma {:induction false} RenewerStops(s: State, beat: Beat) returns (es: seq<Event>)
    requires s.doneClosed
    ensures Runs(s, es) && After(s, es).renewer.Stopped? && |es| <= 2
    ensures forall i :: 0 <= i < |es| && es[i].Beaten? ==> es[i].beat == beat
  {
    match s.renewer {
      case Stopped =>
        es := [];
      case Selecting =>
        es := [SawDone];
        OneStep(s, SawDone);
      case Beating =>
        if beat.BeatOk? {
          es := [Beaten(beat), SawDone];
          assert es[1..] == [SawDone];
          OneStep(Step(s, es[0]), SawDone);
        } else {
          es := [Beaten(beat)];
          OneStep(s, Beaten(beat));
        }
    }
  }

  predicate ByRenewer(e: Event) { e.SawDone? || e.SawCancel? || e.LeaseExpired? || e.Ticked? || e.Beaten? }

  ghost function RenewerSteps(es: seq<Event>): nat {
    if es == [] then 0 else (if ByRenewer(es[0]) then 1 else 0) + RenewerSteps(es[1..])
  }

  ghost function Ticks(es: seq<Event>): nat {
    if es == [] then 0 else (if es[0].Ticked? then 1 else 0) + Ticks(es[1..])
  }

  /** How many steps the renewer has left unless the ticker fires. */
  function Left(r: Renewer): nat {
    match r
    case Stopped => 0
    case Selecting => 1
    case Beating => 2
  }

  /** Only the ticker keeps the renewer going: without it, it makes at most two more steps. */
  lemma {:induction false} RenewerBounded(s: State, es: seq<Event>)
    requires Runs(s, es)
    ensures RenewerSteps(es) + Left(After(s, es).renewer) <= 2 * Ticks(es) + Left(s.renewer)
    decreases |es|
  {
    if es != [] { RenewerBounded(Step(s, es[0]), es[1..]); }
  }

  // ---- The tail of process ----

  /** From the join to the return, with the environment's replies as parameters. */
  method Settle(parentDone: bool, cause: Cause, handler: Outcome, first: Reply, second: Reply)
    returns (calls: seq<Call>, end: End)
    ensures parentDone ==> end == ParentStopped && calls == []
    ensures !parentDone && Verdict(cause, handler).None? ==> end == LeaseWasLost && calls == []
    ensures !parentDone && Verdict(cause, handler).Some? ==>
              calls == [Verdict(cause, handler).value] + (if first.RefusedCanceled?
                  then [Call(Canceled, false)] else [])
              && end == Ended(if first.RefusedCanceled? then second else first)
  {
    calls := [];
    if parentDone { return calls, ParentStopped; }
    var outcome := handler;
    var state, commit := if outcome.HandlerOk? then outcome.state else Failed, outcome.HandlerOk? && outcome.commits;
    var failed := outcome.HandlerErr?;
    if cause.CauseCanceled? {
      state, commit, failed := Canceled, false, false;
    } else if !cause.NoCause? {
      return calls, LeaseWasLost;
    }
    if failed { state, commit := Failed, false; }
    calls := [Call(state, commit)];
    var reply := first;
    if reply.RefusedCanceled? {
      calls := calls + [Call(Canceled, false)];
      reply := second;
    }
    end := Ended(reply);
  }
}

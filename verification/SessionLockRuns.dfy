/**
  The session lock over whole runs: safety, progress, timers and answers.

  A run is any sequence of enabled events from `Initial`. Nothing is assumed about fairness except
  where a lemma names the redraws that have to happen.
 */
module SessionLockRuns {
  import opened SessionLock
  import opened SessionLockHistory
  import opened SessionLockInvariants

  ghost predicate Invariant(s: Session) {
    Tracked(s) && LockingIsDriven(s) && TimersMatch(s) && RequestsAreAccounted(s)
  }

  lemma StepKeepsInvariant(s: Session, e: Event)
    requires Invariant(s) && Enabled(s, e)
    ensures Invariant(Step(s, e))
  {
    StepKeepsTracked(s, e);
    StepKeepsDriven(s, e);
    StepKeepsTimers(s, e);
    StepKeepsRequests(s, e);
  }

  lemma {:induction false} RunKeepsInvariant(s: Session, events: seq<Event>)
    requires Invariant(s) && ValidRun(s, events)
    ensures Invariant(Run(s, events))
    decreases |events|
  {
    if events != [] {
      StepKeepsInvariant(s, events[0]);
      RunKeepsInvariant(Step(s, events[0]), events[1..]);
    }
  }

  // ----- safety

  ghost predicate NoBlindRedraw(s: Session, events: seq<Event>)
    requires ValidRun(s, events)
    decreases |events|
  {
    events == [] || (!IsBlindRedraw(s, events[0]) && NoBlindRedraw(Step(s, events[0]), events[1..]))
  }

  /** Every state on the way is safe. */
  ghost predicate SafeThroughout(s: Session, events: seq<Event>)
    requires ValidRun(s, events)
    decreases |events|
  {
    Safe(s) && (events == [] || SafeThroughout(Step(s, events[0]), events[1..]))
  }

  /** A run is safe in all its states exactly when no redraw in it is blind. */
  lemma {:induction false} SafeThroughoutIff(s: Session, events: seq<Event>)
    requires Invariant(s) && Safe(s) && ValidRun(s, events)
    ensures SafeThroughout(s, events) <==> NoBlindRedraw(s, events)
    decreases |events|
  {
    if events != [] {
      var t := Step(s, events[0]);
      StepStaysSafeIff(s, events[0]);
      if Safe(t) {
        StepKeepsInvariant(s, events[0]);
        SafeThroughoutIff(t, events[1..]);
      }
    }
  }

  lemma {:induction false} SafeAtTheEnd(s: Session, events: seq<Event>)
    requires ValidRun(s, events) && SafeThroughout(s, events)
    ensures Safe(Run(s, events))
    decreases |events|
  {
    if events != [] {
      SafeAtTheEnd(Step(s, events[0]), events[1..]);
    }
  }

  /** With a backend that blanks, there is nothing to be blind to. */
  lemma {:induction false} BlankingIsNeverBlind(s: Session, events: seq<Event>)
    requires s.monitors.blanks && Tracked(s) && ValidRun(s, events)
    ensures NoBlindRedraw(s, events)
    decreases |events|
  {
    if events != [] {
      StepKeepsTracked(s, events[0]);
      StepKeepsBackend(s, events[0]);
      BlankingIsNeverBlind(Step(s, events[0]), events[1..]);
    }
  }

  lemma StepKeepsBackend(s: Session, e: Event)
    requires Enabled(s, e)
    ensures Step(s, e).monitors.blanks == s.monitors.blanks
  {
    if e.Redrawn? {
      assert RedrawOutput(s, e.output, e.outcome).monitors.blanks == s.monitors.blanks;
    } else if e.OutputRemoved? {
      assert ForgetOutput(s, e.output, e.moved).monitors.blanks == s.monitors.blanks;
    }
  }

  /** A locked session shows no session frame. */
  ghost predicate IsHidden(s: Session) {
    s.lockState.Locked? ==>
      s.frames.Keys == s.outputs.Keys && AllRenderedLocked(s.outputs) && NoSessionFrame(s.frames)
  }

  /** A run without blind redraws hides the session and was right about every `locked` it sent. */
  lemma LockedSessionIsHidden(blanks: bool, events: seq<Event>)
    requires ValidRun(Initial(blanks), events) && NoBlindRedraw(Initial(blanks), events)
    ensures var s := Run(Initial(blanks), events);
      IsHidden(s) && ConfirmationsWereSafe(s.log)
  {
    RunKeepsInvariant(Initial(blanks), events);
    SafeThroughoutIff(Initial(blanks), events);
    SafeAtTheEnd(Initial(blanks), events);
  }

  lemma PrependStep(s: Session, e: Event, rest: seq<Event>)
    requires Enabled(s, e) && ValidRun(Step(s, e), rest)
    ensures ValidRun(s, [e] + rest) && Run(s, [e] + rest) == Run(Step(s, e), rest)
  {
    assert ([e] + rest)[1..] == rest;
  }

  /** Some run from here ends locked over a session frame, which was there when `locked` was sent. */
  ghost predicate CanBeShown(s: Session) {
    exists events :: ValidRun(s, events) && IsShown(Run(s, events))
  }

  ghost predicate IsShown(s: Session) {
    !IsHidden(s) && !ConfirmationsWereSafe(s.log)
  }

  lemma CanBeShownBefore(s: Session, e: Event)
    requires Enabled(s, e) && CanBeShown(Step(s, e))
    ensures CanBeShown(s)
  {
    var rest :| ValidRun(Step(s, e), rest) && IsShown(Run(Step(s, e), rest));
    PrependStep(s, e, rest);
  }

  /** One output, which was left showing the session. */
  predicate ShowsSession(s: Session, o: OutputId) {
    s.outputs.Keys == {o} && o in s.frames && s.frames[o] == SessionFrame
  }

  /** It is redrawn blindly: it counts as locked, and so does the session. */
  lemma LockingBlindly(s: Session, o: OutputId)
    requires ShowsSession(s, o) && !s.monitors.active
    requires s.lockState.Locking? && s.outputs[o].redrawState.Queued?
    ensures CanBeShown(s)
  {
    var e := Redrawn(o, SubmittedAtOnce);
    var t := Step(s, e);
    assert o in t.frames && t.log[|s.log|] == Confirmed(s.lockState.confirmation.id, s.frames);
    assert ValidRun(t, []) && IsShown(Run(t, []));
    CanBeShownBefore(s, e);
  }

  lemma WaitingInTheDark(s: Session, o: OutputId)
    requires ShowsSession(s, o) && !s.monitors.active
    requires s.lockState.WaitingForSurfaces? && s.outputs[o].redrawState.Idle?
    requires Enabled(s, DeadlineExpired(s.lockState.deadline))
    ensures CanBeShown(s)
  {
    var e := DeadlineExpired(s.lockState.deadline);
    assert o in s.outputs;
    LockingBlindly(Step(s, e), o);
    CanBeShownBefore(s, e);
  }

  lemma LockingInTheDark(s: Session, o: OutputId)
    requires ShowsSession(s, o) && !s.monitors.active && s.lockState.Unlocked? && s.outputs[o].redrawState.Idle?
    ensures CanBeShown(s)
  {
    var e := LockRequested(0, true);
    assert o in s.outputs;
    WaitingInTheDark(Step(s, e), o);
    CanBeShownBefore(s, e);
  }

  /** On a backend that does not blank, switching the monitors off over a session frame is enough. */
  lemma SwitchingOffUnblanked(s: Session, o: OutputId)
    requires ShowsSession(s, o) && s.monitors == Monitors(true, false)
    requires s.lockState.Unlocked? && s.outputs[o].redrawState.Idle?
    ensures CanBeShown(s)
  {
    LockingInTheDark(Step(s, MonitorsDeactivated), o);
    CanBeShownBefore(s, MonitorsDeactivated);
  }

  /** Such a run from startup: draw, switch off, request a lock, let the deadline pass, redraw. */
  lemma BlindLock()
    ensures CanBeShown(Initial(false))
  {
    var added, drawn := OutputAdded(0, {}), Redrawn(0, SubmittedAtOnce);
    var s := Step(Initial(false), added);
    SwitchingOffUnblanked(Step(s, drawn), 0);
    CanBeShownBefore(s, drawn);
    CanBeShownBefore(Initial(false), added);
  }

  /** The session is hidden in every locked state of every run exactly if the backend blanks. */
  lemma HidesSessionIff(blanks: bool)
    ensures (forall events | ValidRun(Initial(blanks), events) :: IsHidden(Run(Initial(blanks), events))) <==> blanks
  {
    if blanks {
      forall events | ValidRun(Initial(blanks), events) ensures IsHidden(Run(Initial(blanks), events)) {
        BlankingIsNeverBlind(Initial(blanks), events);
        LockedSessionIsHidden(blanks, events);
      }
    } else {
      BlindLock();
      var events :| ValidRun(Initial(blanks), events) && IsShown(Run(Initial(blanks), events));
      assert !IsHidden(Run(Initial(blanks), events));
    }
  }

  /** And `locked` is sent over a session frame in some run exactly if it does not. */
  lemma ConfirmationsAreSafeIff(blanks: bool)
    ensures (forall events | ValidRun(Initial(blanks), events) :: ConfirmationsWereSafe(Run(Initial(blanks), events).log))
      <==> blanks
  {
    if blanks {
      forall events | ValidRun(Initial(blanks), events) ensures ConfirmationsWereSafe(Run(Initial(blanks), events).log) {
        BlankingIsNeverBlind(Initial(blanks), events);
        LockedSessionIsHidden(blanks, events);
      }
    } else {
      BlindLock();
      var events :| ValidRun(Initial(blanks), events) && IsShown(Run(Initial(blanks), events));
      assert !ConfirmationsWereSafe(Run(Initial(blanks), events).log);
    }
  }

  /** A deadline timer only fires for the request that started it, so it always finds work to do. */
  lemma DeadlineFindsItsRequest(blanks: bool, events: seq<Event>, token: Token)
    requires ValidRun(Initial(blanks), events)
    ensures var s := Run(Initial(blanks), events);
      Enabled(s, DeadlineExpired(token)) <==> s.lockState.WaitingForSurfaces? && s.lockState.deadline == token
  {
    RunKeepsInvariant(Initial(blanks), events);
  }

  /** Every request was confirmed once, dropped once, or is the one still being worked on. */
  lemma RequestsAreAnsweredOnce(blanks: bool, events: seq<Event>, id: nat)
    requires ValidRun(Initial(blanks), events) && id < Run(Initial(blanks), events).nextRequest
    ensures var s := Run(Initial(blanks), events);
      var held := s.lockState.Held().Some? && s.lockState.confirmation.id == id;
      && (held <==> !IsResolved(s.log, id))
      && (forall i, j | 0 <= i < |s.log| && 0 <= j < |s.log| && s.log[i].id == id && s.log[j].id == id :: i == j)
  {
    RunKeepsInvariant(Initial(blanks), events);
  }

  // ----- progress

  /** The event that makes good for a redraw `o` owed: it was redrawn, or it is gone. */
  predicate Serves(e: Event, o: OutputId) {
    (e.Redrawn? && e.output == o) || (e.OutputRemoved? && e.output == o)
  }

  ghost predicate IsServed(events: seq<Event>, o: OutputId) {
    exists i :: 0 <= i < |events| && Serves(events[i], o)
  }

  ghost predicate SomethingIsServed(events: seq<Event>) {
    exists i :: 0 <= i < |events| && (events[i].Redrawn? || events[i].OutputRemoved?)
  }

  lemma RedrawWhileLocking(s: Session, o: OutputId, outcome: RenderOutcome)
    requires s.lockState.Locking? && o in s.outputs
    ensures var t := Redraw(s, o, outcome);
      && s.log <= t.log
      && (if t.lockState.Locking? then
            && t.lockState == s.lockState
            && !IsUnlocked(t.outputs, o)
            && (forall p | IsUnlocked(t.outputs, p) :: IsUnlocked(s.outputs, p))
            && (exists p :: IsUnlocked(t.outputs, p))
          else
            IsResolved(t.log, s.lockState.confirmation.id))
  {
    var redrawn := RedrawOutput(s, o, outcome);
    RedrawTouchesOnlyOne(s, o, outcome);
    assert redrawn.log == s.log;
    var t := SettleAfterRedraw(redrawn, o);
    if t.lockState.Locking? {
      assert t == redrawn;
      var p :| p in t.outputs && t.outputs[p].lockRenderState != RenderedLocked;
      assert IsUnlocked(t.outputs, p);
    } else {
      assert t.log[|s.log|].id == s.lockState.confirmation.id;
    }
  }

  lemma RemovalWhileLocking(s: Session, o: OutputId, moved: set<OutputId>, overlayClosed: bool)
    requires s.lockState.Locking? && o in s.outputs
    ensures var t := RemoveOutput(s, o, moved, overlayClosed);
      && s.log <= t.log
      && (if t.lockState.Locking? then
            && t.lockState == s.lockState
            && !IsUnlocked(t.outputs, o)
            && (forall p | IsUnlocked(t.outputs, p) :: IsUnlocked(s.outputs, p))
            && (exists p :: IsUnlocked(t.outputs, p))
          else
            IsResolved(t.log, s.lockState.confirmation.id))
  {
    var forgotten := ForgetOutput(s, o, moved);
    var settled := SettleAfterRemoval(forgotten);
    if settled.lockState.Locking? {
      var p :| p in settled.outputs && settled.outputs[p].lockRenderState != RenderedLocked;
      assert IsUnlocked(RemoveOutput(s, o, moved, overlayClosed).outputs, p);
    } else {
      assert settled.log[|s.log|].id == s.lockState.confirmation.id;
    }
  }

  /** Any other event while locking keeps the same outputs unlocked, or answers the request. */
  lemma OtherStepWhileLocking(s: Session, e: Event)
    requires s.lockState.Locking? && Enabled(s, e) && !e.Redrawn? && !e.OutputRemoved?
    ensures var t := Step(s, e);
      && s.log <= t.log
      && (if t.lockState.Locking? then
            && t.lockState == s.lockState
            && (forall p :: IsUnlocked(t.outputs, p) <==> IsUnlocked(s.outputs, p))
          else
            IsResolved(t.log, s.lockState.confirmation.id))
  {
    if e.UnlockRequested? {
      assert Step(s, e).log[|s.log|].id == s.lockState.confirmation.id;
    }
  }

  /** One step while locking: served outputs are no longer unlocked, and no new ones are. */
  lemma StepWhileLocking(s: Session, e: Event)
    requires s.lockState.Locking? && Enabled(s, e)
    ensures var t := Step(s, e);
      if t.lockState.Locking? then
        && t.lockState == s.lockState
        && (forall o | IsUnlocked(t.outputs, o) :: IsUnlocked(s.outputs, o) && !Serves(e, o))
        && ((exists o :: IsUnlocked(s.outputs, o)) || e.Redrawn? || e.OutputRemoved? ==>
              exists o :: IsUnlocked(t.outputs, o))
      else
        IsResolved(t.log, s.lockState.confirmation.id)
  {
    match e
    case Redrawn(o, outcome) => RedrawWhileLocking(s, o, outcome);
    case OutputRemoved(o, moved, overlayClosed) => RemovalWhileLocking(s, o, moved, overlayClosed);
    case _ => OtherStepWhileLocking(s, e);
  }

  lemma {:induction false} LogOnlyGrows(s: Session, events: seq<Event>)
    requires ValidRun(s, events)
    ensures s.log <= Run(s, events).log
    decreases |events|
  {
    if events != [] {
      AnswersStep(s, events[0]);
      LogOnlyGrows(Step(s, events[0]), events[1..]);
    }
  }

  lemma {:induction false} ServingResolves(s: Session, events: seq<Event>)
    requires s.lockState.Locking? && ValidRun(s, events)
    requires forall o | IsUnlocked(s.outputs, o) :: IsServed(events, o)
    requires (exists o :: IsUnlocked(s.outputs, o)) || SomethingIsServed(events)
    ensures IsResolved(Run(s, events).log, s.lockState.confirmation.id)
    decreases |events|
  {
    var e, rest := events[0], events[1..];
    var t := Step(s, e);
    StepWhileLocking(s, e);
    if t.lockState.Locking? {
      forall o | IsUnlocked(t.outputs, o) ensures IsServed(rest, o) {
        var i :| 0 <= i < |events| && Serves(events[i], o);
        assert Serves(rest[i - 1], o);
      }
      if !(exists o :: IsUnlocked(t.outputs, o)) {
        var i :| 0 <= i < |events| && (events[i].Redrawn? || events[i].OutputRemoved?);
        assert rest[i - 1] == events[i];
      }
      ServingResolves(t, rest);
    } else {
      LogOnlyGrows(t, rest);
      var i :| 0 <= i < |t.log| && t.log[i].id == s.lockState.confirmation.id;
      assert Run(s, events).log[i] == t.log[i];
    }
  }

  /**
    Locking cannot get stuck: once every output that owes a redraw has been redrawn or removed, in
    any order and with anything else happening in between, the request has been answered.
   */
  lemma LockingIsAnswered(s: Session, events: seq<Event>)
    requires Invariant(s) && s.lockState.Locking? && ValidRun(s, events)
    requires forall o | OwesRedraw(s.outputs, o) :: IsServed(events, o)
    ensures IsResolved(Run(s, events).log, s.lockState.confirmation.id)
  {
    var o :| OwesRedraw(s.outputs, o);
    assert IsServed(events, o);
    ServingResolves(s, events);
  }

  // ----- from the request to its answer

  ghost predicate AwaitsSurfaces(s: Session, id: nat) {
    s.lockState.WaitingForSurfaces? && s.lockState.confirmation.id == id
  }

  /** Waiting can always be ended: the deadline is armed, and leads to locking or to an answer. */
  lemma WaitingEnds(s: Session)
    requires Invariant(s) && s.lockState.WaitingForSurfaces?
    ensures var e, request := DeadlineExpired(s.lockState.deadline), s.lockState.confirmation;
      && Enabled(s, e)
      && (Step(s, e).lockState == Locking(request) || IsResolved(Step(s, e).log, request.id))
  {
    var t := Step(s, DeadlineExpired(s.lockState.deadline));
    if !t.lockState.Locking? {
      assert t.log[|s.log|].id == s.lockState.confirmation.id;
    }
  }

  /**
    Every request is answered: once it no longer waits for surfaces, after whatever happened
    meanwhile, and the redraws owed at that point were served, it was confirmed or dropped.
   */
  lemma EveryRequestIsAnswered(s: Session, waited: seq<Event>, served: seq<Event>, id: nat)
    requires Invariant(s) && id < s.nextRequest && ValidRun(s, waited)
    requires !AwaitsSurfaces(Run(s, waited), id)
    requires ValidRun(Run(s, waited), served)
    requires forall o | OwesRedraw(Run(s, waited).outputs, o) :: IsServed(served, o)
    ensures IsResolved(Run(Run(s, waited), served).log, id)
  {
    var t := Run(s, waited);
    RunKeepsInvariant(s, waited);
    RequestsAreCounted(s, waited);
    if IsResolved(t.log, id) {
      LogOnlyGrows(t, served);
      var i :| 0 <= i < |t.log| && t.log[i].id == id;
      assert Run(t, served).log[i].id == id;
    } else {
      LockingIsAnswered(t, served);
    }
  }
}

/**
  What every step of the session lock keeps.

  There are four independent invariants: what is tracked of the outputs (`Tracked`), what they still
  owe (`LockingIsDriven`), which timers run (`TimersMatch`) and how requests were answered
  (`RequestsAreAccounted`). A fifth one, what the outputs show (`Safe`), has exactly one exception.
  Each has one lemma per operation that is not immediate, and one for `Step`. The consequences for
  whole runs are in `SessionLockRuns`.
 */
module SessionLockInvariants {
  import opened SessionLock

  /** Events that neither look at the lock state's request nor answer it. */
  predicate IsQuiet(e: Event) {
    || e.LockSurfaceCreated? || e.OutputAdded? || e.MonitorsDeactivated? || e.MonitorsActivated?
    || e.RedrawRequested? || e.VBlankArrived? || e.EstimatedTimerExpired?
  }

  function AfterCommit(s: Session, surface: SurfaceId, nowMapped: bool): Session {
    s.(mapped := if nowMapped then s.mapped + {surface} else s.mapped - {surface})
  }

  // ----- what is tracked of the outputs

  /**
    Every output has a frame, outputs that were blanked show nothing, and a locked session has only
    outputs that count as locked.
   */
  ghost predicate Tracked(s: Session) {
    && s.frames.Keys == s.outputs.Keys
    && (s.monitors.blanks && !s.monitors.active ==> forall o | o in s.frames :: s.frames[o] == Nothing)
    && (s.lockState.Locked? ==> AllRenderedLocked(s.outputs))
  }

  lemma ContinueKeepsTracked(s: Session)
    requires Tracked(s)
    ensures Tracked(ContinueToLocking(s))
    ensures Tracked(MaybeContinueToLocking(s))
  {
  }

  lemma RedrawKeepsTracked(s: Session, o: OutputId, outcome: RenderOutcome)
    requires Tracked(s) && o in s.outputs
    ensures Tracked(Redraw(s, o, outcome))
  {
    RedrawOutputKeepsTracked(s, o, outcome);
    SettlingKeepsTracked(RedrawOutput(s, o, outcome), o);
  }

  lemma RedrawOutputKeepsTracked(s: Session, o: OutputId, outcome: RenderOutcome)
    requires Tracked(s) && o in s.outputs
    ensures Tracked(RedrawOutput(s, o, outcome))
  {
    RedrawTouchesOnlyOne(s, o, outcome);
    RedrawShowsFrame(s, o, outcome);
  }

  lemma SettlingKeepsTracked(s: Session, o: OutputId)
    requires Tracked(s) && o in s.outputs
    ensures Tracked(SettleAfterRedraw(s, o))
  {
  }

  lemma RemoveOutputKeepsTracked(s: Session, o: OutputId, moved: set<OutputId>, overlayClosed: bool)
    requires Tracked(s) && o in s.outputs
    ensures Tracked(RemoveOutput(s, o, moved, overlayClosed))
  {
    var forgotten := ForgetOutput(s, o, moved);
    assert Tracked(forgotten);
    ContinueKeepsTracked(forgotten);
    assert Tracked(SettleAfterRemoval(forgotten));
  }

  lemma QuietStepKeepsTracked(s: Session, e: Event)
    requires Tracked(s) && Enabled(s, e) && IsQuiet(e)
    ensures Tracked(Step(s, e))
  {
  }

  lemma StepKeepsTracked(s: Session, e: Event)
    requires Tracked(s) && Enabled(s, e)
    ensures Tracked(Step(s, e))
  {
    match e
    case LockRequested(_, _) =>
    case UnlockRequested =>
    case SurfaceCommitted(surface, nowMapped, _) => ContinueKeepsTracked(AfterCommit(s, surface, nowMapped));
    case DeadlineExpired(_) => ContinueKeepsTracked(s);
    case OutputRemoved(o, moved, overlayClosed) => RemoveOutputKeepsTracked(s, o, moved, overlayClosed);
    case Redrawn(o, outcome) => RedrawKeepsTracked(s, o, outcome);
    case _ => QuietStepKeepsTracked(s, e);
  }

  // ----- safety: what the outputs show

  ghost predicate NoSessionFrame(shown: map<OutputId, Frame>) {
    forall o | o in shown :: shown[o] != SessionFrame
  }

  /** An output counted as locked shows the lock screen or nothing. */
  ghost predicate RendersAreHonest(s: Session) {
    forall o | o in s.outputs && o in s.frames :: s.outputs[o].lockRenderState == RenderedLocked ==> s.frames[o] != SessionFrame
  }

  ghost predicate ConfirmationsWereSafe(log: seq<Resolution>) {
    forall i | 0 <= i < |log| :: log[i].Confirmed? ==> NoSessionFrame(log[i].shown)
  }

  ghost predicate Safe(s: Session) {
    RendersAreHonest(s) && ConfirmationsWereSafe(s.log)
  }

  /**
    Counting an output as locked because the monitors are off, although the backend left a session
    frame on it.
   */
  predicate IsBlindRedraw(s: Session, e: Event) {
    && e.Redrawn? && !s.monitors.active && s.lockState.IsLocked()
    && e.output in s.frames && s.frames[e.output] == SessionFrame
  }

  lemma LockKeepsSafe(s: Session, client: nat, holderAlive: bool)
    requires Tracked(s) && Safe(s)
    ensures Safe(Lock(s, client, holderAlive))
  {
  }

  lemma ContinueKeepsSafe(s: Session)
    requires Tracked(s) && Safe(s)
    ensures Safe(ContinueToLocking(s))
    ensures Safe(MaybeContinueToLocking(s))
  {
  }

  lemma UnlockKeepsSafe(s: Session)
    requires Safe(s)
    ensures Safe(Unlock(s))
  {
  }

  /** What a redraw puts on the output: the frame for the lock state, or nothing new. */
  lemma RedrawShowsFrame(s: Session, o: OutputId, outcome: RenderOutcome)
    requires o in s.outputs && o in s.frames
    ensures var redrawn := RedrawOutput(s, o, outcome);
      && redrawn.log == s.log
      && redrawn.frames.Keys == s.frames.Keys
      && (forall p | p in s.frames && p != o :: redrawn.frames[p] == s.frames[p])
      && (if s.monitors.active && !outcome.IsSkipped() then
            redrawn.frames[o] == (if s.lockState.IsLocked() then LockFrame else SessionFrame)
          else
            redrawn.frames[o] == s.frames[o])
      && redrawn.outputs[o].lockRenderState ==
           if s.monitors.active && outcome.IsSkipped() then s.outputs[o].lockRenderState
           else if s.lockState.IsLocked() then RenderedLocked
           else RenderedUnlocked
  {
  }

  /** Redrawing an output keeps the flags honest exactly when it is not done blindly. */
  lemma RedrawOutputStaysSafeIff(s: Session, o: OutputId, outcome: RenderOutcome)
    requires Tracked(s) && Safe(s) && o in s.outputs
    ensures Safe(RedrawOutput(s, o, outcome)) <==> !IsBlindRedraw(s, Redrawn(o, outcome))
  {
    var redrawn := RedrawOutput(s, o, outcome);
    RedrawTouchesOnlyOne(s, o, outcome);
    RedrawShowsFrame(s, o, outcome);
    forall p | p in redrawn.outputs && p in redrawn.frames && p != o
      ensures redrawn.outputs[p].lockRenderState == RenderedLocked ==> redrawn.frames[p] != SessionFrame
    {
      assert redrawn.outputs[p] == s.outputs[p] && redrawn.frames[p] == s.frames[p];
    }
  }

  /** Looking at the lock state afterwards neither hides a wrong flag nor adds one. */
  lemma SettlingStaysSafeIff(s: Session, o: OutputId)
    requires Tracked(s) && o in s.outputs
    ensures Safe(SettleAfterRedraw(s, o)) <==> Safe(s)
  {
    var t := SettleAfterRedraw(s, o);
    assert t.frames == s.frames;
    forall p | p in s.outputs ensures t.outputs[p].lockRenderState == s.outputs[p].lockRenderState {
    }
    assert RendersAreHonest(t) <==> RendersAreHonest(s);
    assert s.log <= t.log;
    if Safe(s) {
      assert |t.log| == |s.log| || t.log == s.log + [t.log[|s.log|]];
    } else if ConfirmationsWereSafe(t.log) {
      assert forall i | 0 <= i < |s.log| :: s.log[i] == t.log[i];
    }
  }

  lemma RedrawStaysSafeIff(s: Session, o: OutputId, outcome: RenderOutcome)
    requires Tracked(s) && Safe(s) && o in s.outputs
    ensures Safe(Redraw(s, o, outcome)) <==> !IsBlindRedraw(s, Redrawn(o, outcome))
  {
    RedrawOutputStaysSafeIff(s, o, outcome);
    RedrawOutputKeepsTracked(s, o, outcome);
    RedrawTouchesOnlyOne(s, o, outcome);
    SettlingStaysSafeIff(RedrawOutput(s, o, outcome), o);
  }

  lemma RemoveOutputKeepsSafe(s: Session, o: OutputId, moved: set<OutputId>, overlayClosed: bool)
    requires Tracked(s) && Safe(s) && o in s.outputs
    ensures Safe(RemoveOutput(s, o, moved, overlayClosed))
  {
    var forgotten := ForgetOutput(s, o, moved);
    assert Tracked(forgotten) && Safe(forgotten);
    ContinueKeepsSafe(forgotten);
    assert Safe(SettleAfterRemoval(forgotten));
  }

  lemma CommitKeepsSafe(s: Session, e: Event)
    requires Tracked(s) && Safe(s) && Enabled(s, e) && e.SurfaceCommitted?
    ensures Safe(Step(s, e))
  {
    ContinueKeepsSafe(AfterCommit(s, e.committed, e.nowMapped));
  }

  lemma QuietStepKeepsSafe(s: Session, e: Event)
    requires Tracked(s) && Safe(s) && Enabled(s, e) && IsQuiet(e)
    ensures Safe(Step(s, e))
  {
  }

  /**
    Every event keeps the session safe, hotplug and switching the monitors off included, except for
    exactly one: a redraw of an output on which a backend without blanking left a session frame.
   */
  lemma StepStaysSafeIff(s: Session, e: Event)
    requires Tracked(s) && Safe(s) && Enabled(s, e)
    ensures Safe(Step(s, e)) <==> !IsBlindRedraw(s, e)
  {
    match e
    case LockRequested(client, holderAlive) => LockKeepsSafe(s, client, holderAlive);
    case UnlockRequested => UnlockKeepsSafe(s); ActivateKeepsSafe(Unlock(s));
    case SurfaceCommitted(_, _, _) => CommitKeepsSafe(s, e);
    case DeadlineExpired(_) => ContinueKeepsSafe(s);
    case OutputRemoved(o, moved, overlayClosed) => RemoveOutputKeepsSafe(s, o, moved, overlayClosed);
    case Redrawn(o, outcome) => RedrawStaysSafeIff(s, o, outcome);
    case _ => QuietStepKeepsSafe(s, e);
  }

  lemma ActivateKeepsSafe(s: Session)
    requires Safe(s)
    ensures Safe(ActivateMonitors(s))
  {
  }

  // ----- progress: what the outputs still owe

  ghost predicate OwesRedraw(outputs: Outputs, o: OutputId) {
    o in outputs && outputs[o].redrawState.IsPending()
  }

  ghost predicate IsUnlocked(outputs: Outputs, o: OutputId) {
    o in outputs && outputs[o].lockRenderState == RenderedUnlocked
  }

  /** While locking, some redraw is pending, and one is for every output not yet rendered locked. */
  ghost predicate LockingIsDriven(s: Session) {
    s.lockState.Locking? ==>
      && (exists o :: OwesRedraw(s.outputs, o))
      && (forall o | IsUnlocked(s.outputs, o) :: OwesRedraw(s.outputs, o))
  }

  /** Every output of `from` that owes a redraw still does in `to`, and none became unlocked. */
  ghost predicate KeepsOwing(from: Outputs, to: Outputs) {
    && (forall o | OwesRedraw(from, o) :: OwesRedraw(to, o))
    && (forall o | IsUnlocked(to, o) :: IsUnlocked(from, o))
  }

  lemma OwingKeepsDriven(s: Session, t: Session)
    requires LockingIsDriven(s) && t.lockState == s.lockState && KeepsOwing(s.outputs, t.outputs)
    ensures LockingIsDriven(t)
  {
  }

  lemma ContinueKeepsDriven(s: Session)
    requires LockingIsDriven(s)
    ensures LockingIsDriven(ContinueToLocking(s))
    ensures LockingIsDriven(MaybeContinueToLocking(s))
  {
    if s.lockState.WaitingForSurfaces? && s.outputs != map[] {
      var o :| o in s.outputs;
      assert OwesRedraw(QueueRedrawAll(s.outputs), o);
    }
  }

  /** Settling after a redraw or a removal leaves an unlocked output whenever it keeps locking. */
  lemma ConfirmKeepsDriven(s: Session)
    requires s.lockState.Locking? && forall o | IsUnlocked(s.outputs, o) :: OwesRedraw(s.outputs, o)
    ensures LockingIsDriven(ConfirmIfAllLocked(s))
    ensures ConfirmIfAllLocked(s).lockState.Locking? ==> exists o :: IsUnlocked(s.outputs, o)
  {
    if !AllRenderedLocked(s.outputs) {
      var o :| o in s.outputs && s.outputs[o].lockRenderState != RenderedLocked;
      assert IsUnlocked(s.outputs, o) && OwesRedraw(s.outputs, o);
    }
  }

  lemma RedrawKeepsDriven(s: Session, o: OutputId, outcome: RenderOutcome)
    requires LockingIsDriven(s) && o in s.outputs
    ensures LockingIsDriven(Redraw(s, o, outcome))
  {
    var redrawn := RedrawOutput(s, o, outcome);
    RedrawTouchesOnlyOne(s, o, outcome);
    if s.lockState.Locking? && redrawn.outputs[o].lockRenderState == RenderedLocked {
      forall p | IsUnlocked(redrawn.outputs, p) ensures OwesRedraw(redrawn.outputs, p) {
        assert p != o && IsUnlocked(s.outputs, p) && OwesRedraw(s.outputs, p);
      }
      ConfirmKeepsDriven(redrawn);
    }
  }

  /** A redraw changes one output, leaves it not queued, and does not touch the lock state itself. */
  lemma RedrawTouchesOnlyOne(s: Session, o: OutputId, outcome: RenderOutcome)
    requires o in s.outputs
    ensures var redrawn := RedrawOutput(s, o, outcome);
      && redrawn.lockState == s.lockState
      && redrawn.monitors == s.monitors
      && redrawn.outputs.Keys == s.outputs.Keys
      && (forall p | p in s.outputs && p != o :: redrawn.outputs[p] == s.outputs[p])
      && !redrawn.outputs[o].redrawState.IsQueued()
      && (redrawn.outputs[o].lockRenderState == RenderedUnlocked && s.lockState.Locking? ==>
            s.outputs[o].lockRenderState == RenderedUnlocked && outcome.IsSkipped() && s.monitors.active)
  {
  }

  lemma RemoveOutputKeepsDriven(s: Session, o: OutputId, moved: set<OutputId>, overlayClosed: bool)
    requires LockingIsDriven(s) && o in s.outputs
    ensures LockingIsDriven(RemoveOutput(s, o, moved, overlayClosed))
  {
    var forgotten := ForgetOutput(s, o, moved);
    if s.lockState.Locking? {
      forall p | IsUnlocked(forgotten.outputs, p) ensures OwesRedraw(forgotten.outputs, p) {
        assert IsUnlocked(s.outputs, p) && OwesRedraw(s.outputs, p);
      }
      ConfirmKeepsDriven(forgotten);
    } else {
      ContinueKeepsDriven(forgotten);
    }
    var settled := SettleAfterRemoval(forgotten);
    assert LockingIsDriven(settled);
    OwingKeepsDriven(settled, settled.(outputs := QueueRedrawAll(settled.outputs)));
  }

  lemma StepKeepsDriven(s: Session, e: Event)
    requires LockingIsDriven(s) && Enabled(s, e)
    ensures LockingIsDriven(Step(s, e))
  {
    match e
    case LockRequested(_, _) =>
    case UnlockRequested =>
    case SurfaceCommitted(_, _, _) => CommitKeepsDriven(s, e);
    case DeadlineExpired(_) => ContinueKeepsDriven(s);
    case OutputRemoved(o, moved, overlayClosed) => RemoveOutputKeepsDriven(s, o, moved, overlayClosed);
    case Redrawn(o, outcome) => RedrawKeepsDriven(s, o, outcome);
    case _ => QuietStepKeepsDriven(s, e);
  }

  lemma CommitKeepsDriven(s: Session, e: Event)
    requires LockingIsDriven(s) && Enabled(s, e) && e.SurfaceCommitted?
    ensures LockingIsDriven(Step(s, e))
  {
    if s.lockState.WaitingForSurfaces? {
      ContinueKeepsDriven(AfterCommit(s, e.committed, e.nowMapped));
    } else {
      OwingKeepsDriven(s, Step(s, e));
    }
  }

  lemma QuietStepKeepsDriven(s: Session, e: Event)
    requires LockingIsDriven(s) && Enabled(s, e) && IsQuiet(e)
    ensures LockingIsDriven(Step(s, e))
  {
    if s.lockState.Locking? {
      OwingKeepsDriven(s, Step(s, e));
    }
  }

  // ----- timers

  /** A lock deadline runs exactly while surfaces are awaited, and it is the one that was stored. */
  ghost predicate DeadlineIsExact(s: Session) {
    && (forall t | t in s.timers && s.timers[t].Deadline? :: s.lockState.WaitingForSurfaces? && s.lockState.deadline == t)
    && (s.lockState.WaitingForSurfaces? ==>
          s.lockState.deadline in s.timers && s.timers[s.lockState.deadline].Deadline?)
  }

  /** The tokens in the redraw states are not the deadline's and are not handed out again. */
  ghost predicate TokensAreOwned(s: Session) {
    && (forall t | t in s.timers :: t < s.nextToken)
    && (forall o | o in s.outputs && s.outputs[o].redrawState.IsEstimated() ::
          s.outputs[o].redrawState.token < s.nextToken && !HoldsDeadline(s, s.outputs[o].redrawState.token))
  }

  predicate HoldsDeadline(s: Session, t: Token) {
    t in s.timers && s.timers[t].Deadline?
  }

  ghost predicate TimersMatch(s: Session) {
    DeadlineIsExact(s) && TokensAreOwned(s)
  }

  lemma ContinueKeepsTimers(s: Session)
    requires TimersMatch(s)
    ensures TimersMatch(ContinueToLocking(s))
    ensures TimersMatch(MaybeContinueToLocking(s))
  {
  }

  lemma UnlockKeepsTimers(s: Session)
    requires TimersMatch(s)
    ensures TimersMatch(Unlock(s))
  {
  }

  lemma RedrawOutputKeepsTimers(s: Session, o: OutputId, outcome: RenderOutcome)
    requires TimersMatch(s) && o in s.outputs
    ensures TimersMatch(RedrawOutput(s, o, outcome))
  {
  }

  lemma RemoveOutputKeepsTimers(s: Session, o: OutputId, moved: set<OutputId>, overlayClosed: bool)
    requires TimersMatch(s) && o in s.outputs
    ensures TimersMatch(RemoveOutput(s, o, moved, overlayClosed))
  {
    ForgettingKeepsTimers(s, o, moved);
    SettleAfterRemovalKeepsTimers(ForgetOutput(s, o, moved));
    QueueingKeepsTimers(SettleAfterRemoval(ForgetOutput(s, o, moved)));
  }

  lemma ForgettingKeepsTimers(s: Session, o: OutputId, moved: set<OutputId>)
    requires TimersMatch(s) && o in s.outputs
    ensures TimersMatch(ForgetOutput(s, o, moved))
  {
  }

  lemma SettleAfterRemovalKeepsTimers(s: Session)
    requires TimersMatch(s)
    ensures TimersMatch(SettleAfterRemoval(s))
  {
    ContinueKeepsTimers(s);
  }

  lemma QueueingKeepsTimers(s: Session)
    requires TimersMatch(s)
    ensures TimersMatch(s.(outputs := QueueRedrawAll(s.outputs)))
  {
  }

  lemma RedrawKeepsTimers(s: Session, o: OutputId, outcome: RenderOutcome)
    requires TimersMatch(s) && o in s.outputs
    ensures TimersMatch(Redraw(s, o, outcome))
  {
    var redrawn := RedrawOutput(s, o, outcome);
    RedrawOutputKeepsTimers(s, o, outcome);
    SettleAfterRedrawKeepsTimers(redrawn, o);
  }

  lemma SettleAfterRedrawKeepsTimers(s: Session, o: OutputId)
    requires TimersMatch(s) && o in s.outputs
    ensures TimersMatch(SettleAfterRedraw(s, o))
  {
    UnlockKeepsTimers(s);
  }

  lemma CommitKeepsTimers(s: Session, e: Event)
    requires TimersMatch(s) && Enabled(s, e) && e.SurfaceCommitted?
    ensures TimersMatch(Step(s, e))
  {
    ContinueKeepsTimers(AfterCommit(s, e.committed, e.nowMapped));
  }

  lemma LockKeepsTimers(s: Session, client: nat, holderAlive: bool)
    requires TimersMatch(s)
    ensures TimersMatch(Lock(s, client, holderAlive))
  {
  }

  lemma QuietStepKeepsTimers(s: Session, e: Event)
    requires TimersMatch(s) && Enabled(s, e) && IsQuiet(e)
    ensures TimersMatch(Step(s, e))
  {
  }

  lemma StepKeepsTimers(s: Session, e: Event)
    requires TimersMatch(s) && Enabled(s, e)
    ensures TimersMatch(Step(s, e))
  {
    match e
    case LockRequested(client, holderAlive) => LockKeepsTimers(s, client, holderAlive);
    case UnlockRequested => UnlockKeepsTimers(s); QuietStepKeepsTimers(Unlock(s), MonitorsActivated);
    case SurfaceCommitted(_, _, _) => CommitKeepsTimers(s, e);
    case DeadlineExpired(_) => ContinueKeepsTimers(s);
    case OutputRemoved(o, moved, overlayClosed) => RemoveOutputKeepsTimers(s, o, moved, overlayClosed);
    case Redrawn(o, outcome) => RedrawKeepsTimers(s, o, outcome);
    case _ => QuietStepKeepsTimers(s, e);
  }

  // ----- lock requests

  ghost predicate IsResolved(log: seq<Resolution>, id: nat) {
    exists i :: 0 <= i < |log| && log[i].id == id
  }

  /** Every request so far is either held or was resolved, and none was resolved twice. */
  ghost predicate RequestsAreAccounted(s: Session) {
    && (forall i, j | 0 <= i < j < |s.log| :: s.log[i].id != s.log[j].id)
    && (forall i | 0 <= i < |s.log| :: s.log[i].id < s.nextRequest)
    && (s.lockState.Held().Some? ==>
          s.lockState.confirmation.id < s.nextRequest && !IsResolved(s.log, s.lockState.confirmation.id))
    && (forall id: nat | id < s.nextRequest ::
          IsResolved(s.log, id) || (s.lockState.Held().Some? && s.lockState.confirmation.id == id))
  }

  lemma AppendResolves(log: seq<Resolution>, r: Resolution)
    ensures forall id: nat :: IsResolved(log + [r], id) <==> IsResolved(log, id) || id == r.id
  {
    forall id: nat | IsResolved(log, id) || id == r.id ensures IsResolved(log + [r], id) {
      var i := if id == r.id then |log| else var i :| 0 <= i < |log| && log[i].id == id; i;
      assert (log + [r])[i].id == id;
    }
  }

  /** Answering the held request, or a fresh one, keeps the books; so does doing neither. */
  lemma AnsweringKeepsRequests(s: Session, t: Session, r: Resolution)
    requires RequestsAreAccounted(s)
    requires t.log == s.log + [r] && t.lockState.Held().None?
    requires t.nextRequest == s.nextRequest && s.lockState.Held().Some? && r.id == s.lockState.confirmation.id
    ensures RequestsAreAccounted(t)
  {
    AppendResolves(s.log, r);
  }

  lemma NewRequestKeepsRequests(s: Session, t: Session, r: Resolution)
    requires RequestsAreAccounted(s)
    requires t.log == s.log + [r] && t.lockState.Held() == s.lockState.Held()
    requires r.id == s.nextRequest && t.nextRequest == s.nextRequest + 1
    ensures RequestsAreAccounted(t)
  {
    AppendResolves(s.log, r);
  }

  lemma LockKeepsRequests(s: Session, client: nat, holderAlive: bool)
    requires RequestsAreAccounted(s)
    ensures RequestsAreAccounted(Lock(s, client, holderAlive))
  {
    var t := Lock(s, client, holderAlive);
    if t.log == s.log {
      assert !IsResolved(s.log, s.nextRequest);
    } else {
      NewRequestKeepsRequests(s, t, t.log[|s.log|]);
    }
  }

  lemma ContinueKeepsRequests(s: Session)
    requires RequestsAreAccounted(s)
    ensures RequestsAreAccounted(ContinueToLocking(s))
    ensures RequestsAreAccounted(MaybeContinueToLocking(s))
  {
    if s.lockState.WaitingForSurfaces? && s.outputs == map[] {
      AnsweringKeepsRequests(s, ContinueToLocking(s), Confirmed(s.lockState.confirmation.id, s.frames));
    }
  }

  lemma UnlockKeepsRequests(s: Session)
    requires RequestsAreAccounted(s)
    ensures RequestsAreAccounted(Unlock(s))
  {
    if s.lockState.Held().Some? {
      AnsweringKeepsRequests(s, Unlock(s), Dropped(s.lockState.confirmation.id));
    }
  }

  lemma ConfirmKeepsRequests(s: Session)
    requires RequestsAreAccounted(s) && s.lockState.Locking?
    ensures RequestsAreAccounted(ConfirmIfAllLocked(s))
  {
    if AllRenderedLocked(s.outputs) {
      AnsweringKeepsRequests(s, ConfirmIfAllLocked(s), Confirmed(s.lockState.confirmation.id, s.frames));
    }
  }

  lemma RedrawKeepsRequests(s: Session, o: OutputId, outcome: RenderOutcome)
    requires RequestsAreAccounted(s) && o in s.outputs
    ensures RequestsAreAccounted(Redraw(s, o, outcome))
  {
    var redrawn := RedrawOutput(s, o, outcome);
    SameBooks(s, redrawn);
    UnlockKeepsRequests(redrawn);
    if redrawn.lockState.Locking? {
      ConfirmKeepsRequests(redrawn);
    }
  }

  lemma RemoveOutputKeepsRequests(s: Session, o: OutputId, moved: set<OutputId>, overlayClosed: bool)
    requires RequestsAreAccounted(s) && o in s.outputs
    ensures RequestsAreAccounted(RemoveOutput(s, o, moved, overlayClosed))
  {
    var forgotten := ForgetOutput(s, o, moved);
    SameBooks(s, forgotten);
    ContinueKeepsRequests(forgotten);
    if forgotten.lockState.Locking? {
      ConfirmKeepsRequests(forgotten);
    }
    SameBooks(SettleAfterRemoval(forgotten), RemoveOutput(s, o, moved, overlayClosed));
  }

  lemma SameBooks(s: Session, t: Session)
    requires RequestsAreAccounted(s)
    requires t.lockState == s.lockState && t.log == s.log && t.nextRequest == s.nextRequest
    ensures RequestsAreAccounted(t)
  {
  }

  lemma CommitKeepsRequests(s: Session, e: Event)
    requires RequestsAreAccounted(s) && Enabled(s, e) && e.SurfaceCommitted?
    ensures RequestsAreAccounted(Step(s, e))
  {
    var committed := AfterCommit(s, e.committed, e.nowMapped);
    SameBooks(s, committed);
    ContinueKeepsRequests(committed);
  }

  lemma StepKeepsRequests(s: Session, e: Event)
    requires RequestsAreAccounted(s) && Enabled(s, e)
    ensures RequestsAreAccounted(Step(s, e))
  {
    match e
    case LockRequested(client, holderAlive) => LockKeepsRequests(s, client, holderAlive);
    case UnlockRequested => UnlockKeepsRequests(s); SameBooks(Unlock(s), Step(s, e));
    case SurfaceCommitted(_, _, _) => CommitKeepsRequests(s, e);
    case DeadlineExpired(_) => ContinueKeepsRequests(s); SameBooks(ContinueToLocking(s), Step(s, e));
    case OutputRemoved(o, moved, overlayClosed) => RemoveOutputKeepsRequests(s, o, moved, overlayClosed);
    case Redrawn(o, outcome) => RedrawKeepsRequests(s, o, outcome);
    case _ => SameBooks(s, Step(s, e));
  }
}

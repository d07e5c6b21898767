/**
  What the session keeps for one output, as a function of its history.

  A redraw state is two independent facts: whether a redraw is owed, and what the output waits for
  before it can be redrawn. Both are decided by what happened to the output last, and so are what it
  shows, whether it counts as locked, and its lock surface.
 */
module OutputHistory {
  import opened Options
  import opened LastWords
  import opened SessionLock
  import opened SessionLockInvariants
  import opened SessionLockHistory

  predicate Adds(e: Event, o: OutputId) { e.OutputAdded? && e.output == o }
  predicate Removes(e: Event, o: OutputId) { e.OutputRemoved? && e.output == o }
  predicate Redraws(e: Event, o: OutputId) { e.Redrawn? && e.output == o }

  /** A render call that was made and did something. */
  predicate Renders(s: Session, e: Event, o: OutputId) {
    Redraws(e, o) && s.monitors.active && !e.outcome.IsSkipped()
  }

  predicate TimerOf(s: Session, e: Event, o: OutputId) {
    e.EstimatedTimerExpired? && e.token in s.timers && s.timers[e.token] == EstimatedVBlank(o)
  }

  // ----- which outputs there are

  predicate IsKnown(s: Session, o: OutputId) {
    o in s.outputs
  }

  function KnownWord(m: Moment, o: OutputId): Option<bool> {
    if Adds(m.e, o) then Some(true) else if Removes(m.e, o) then Some(false) else None
  }

  // ----- owed redraws

  predicate Owes(s: Session, o: OutputId) {
    o in s.outputs && s.outputs[o].redrawState.IsPending()
  }

  /** The VBlank is not the one of a frame that was submitted. */
  predicate IsUnawaited(s: Session, o: OutputId) {
    o in s.outputs && !s.outputs[o].redrawState.WaitingForVBlank?
  }

  /** The event asks for a redraw of this output. */
  predicate AsksFor(s: Session, e: Event, o: OutputId) {
    || (match e
        case RedrawRequested(p) => p == o
        case OutputAdded(p, moved) => p == o || o in moved
        case OutputRemoved(_, moved, overlayClosed) => o in moved || overlayClosed
        case MonitorsActivated => !s.monitors.active
        case SurfaceCommitted(_, _, Some(p)) => p == o && !s.lockState.WaitingForSurfaces?
        case VBlankArrived(p, animating) => p == o && (animating || IsUnawaited(s, o))
        case EstimatedTimerExpired(_, animating) => TimerOf(s, e, o) && animating
        case _ => false)
    || Releases(s, e)
    || StartsLocking(s, e)
  }

  /** A redraw pays what is owed, even if it fails. */
  function OwesWord(m: Moment, o: OutputId): Option<bool> {
    if Removes(m.e, o) then Some(false)
    else if AsksFor(m.s, m.e, o) && (o in m.s.outputs || Adds(m.e, o)) then Some(true)
    else if Redraws(m.e, o) then Some(false)
    else None
  }

  // ----- what is awaited

  datatype Awaited = AwaitsNothing | AwaitsVBlank | AwaitsTimer

  function AwaitedBy(redrawState: RedrawState): Awaited {
    if redrawState.WaitingForVBlank? then AwaitsVBlank
    else if redrawState.IsEstimated() then AwaitsTimer
    else AwaitsNothing
  }

  function Awaits(s: Session, o: OutputId): Awaited {
    if o in s.outputs then AwaitedBy(s.outputs[o].redrawState) else AwaitsNothing
  }

  function AwaitsWord(m: Moment, o: OutputId): Option<Awaited> {
    if Redraws(m.e, o) && m.s.monitors.active then
      match m.e.outcome
      case SubmittedToKms => Some(AwaitsVBlank)
      case NoDamageUntilTimer => Some(AwaitsTimer)
      case SkippedUntilTimer => Some(AwaitsTimer)
      case SkippedEarly => None
      case _ => Some(AwaitsNothing)
    else if Removes(m.e, o) || TimerOf(m.s, m.e, o) || (m.e.VBlankArrived? && m.e.output == o) then
      Some(AwaitsNothing)
    else None
  }

  /** A redraw state is exactly these two facts, and the token of the timer that is awaited. */
  lemma RedrawStateIs(a: RedrawState, b: RedrawState)
    requires AwaitedBy(a) == AwaitedBy(b) && a.IsPending() == b.IsPending()
    requires a.IsEstimated() && b.IsEstimated() ==> a.token == b.token
    ensures a == b
  {
  }

  // ----- what is shown

  function Flag(s: Session, o: OutputId): Option<LockRenderState> {
    if o in s.outputs then Some(s.outputs[o].lockRenderState) else None
  }

  /** Set when the output appears, is rendered, or would have been if the monitors were on. */
  function FlagWord(m: Moment, o: OutputId): Option<Option<LockRenderState>> {
    if Removes(m.e, o) then Some(None)
    else if Adds(m.e, o) || Renders(m.s, m.e, o) || (Redraws(m.e, o) && !m.s.monitors.active) then
      Some(Some(if m.s.lockState.IsLocked() then RenderedLocked else RenderedUnlocked))
    else None
  }

  function Shown(s: Session, o: OutputId): Option<Frame> {
    if o in s.frames then Some(s.frames[o]) else None
  }

  function ShownWord(m: Moment, o: OutputId): Option<Option<Frame>> {
    if Removes(m.e, o) then Some(None)
    else if Adds(m.e, o) then Some(Some(Nothing))
    else if Renders(m.s, m.e, o) then Some(Some(if m.s.lockState.IsLocked() then LockFrame else SessionFrame))
    else if m.e.MonitorsDeactivated? && m.s.monitors == Monitors(true, true) && o in m.s.frames then
      Some(Some(Nothing))
    else None
  }

  // ----- lock surfaces

  function SurfaceOn(s: Session, o: OutputId): Option<LockSurface> {
    if o in s.outputs then s.outputs[o].lockSurface else None
  }

  /** The client that made the request which the lock state is about. */
  predicate IsLockClient(lockState: LockState, client: nat) {
    match lockState
    case Unlocked => false
    case WaitingForSurfaces(request, _) => request.client == client
    case Locking(request) => request.client == client
    case Locked(request) => request.client == client
  }

  function SurfaceWord(m: Moment, o: OutputId): Option<Option<LockSurface>> {
    if Adds(m.e, o) || Removes(m.e, o) || Releases(m.s, m.e) then Some(None)
    else if m.e.LockSurfaceCreated? && m.e.onOutput == o && o in m.s.outputs
      && IsLockClient(m.s.lockState, m.e.surface.client) then Some(Some(m.e.surface))
    else None
  }

  // ----- steps that do not belong to one output

  predicate IsMapped(s: Session, surface: SurfaceId) {
    surface in s.mapped
  }

  function MappedWord(m: Moment, surface: SurfaceId): Option<bool> {
    if m.e.SurfaceCommitted? && m.e.committed == surface then Some(m.e.nowMapped) else None
  }

  predicate AreMonitorsActive(s: Session) {
    s.monitors.active
  }

  function MonitorsWord(m: Moment): Option<bool> {
    if m.e.MonitorsDeactivated? then Some(false)
    else if m.e.MonitorsActivated? || m.e.UnlockRequested? then Some(true)
    else None
  }

  // ----- the operations that change several outputs

  /** What an output is apart from owing a redraw. */
  predicate SameButOwed(a: OutputState, b: OutputState) {
    && AwaitedBy(a.redrawState) == AwaitedBy(b.redrawState)
    && a.lockRenderState == b.lockRenderState
    && a.lockSurface == b.lockSurface
  }

  lemma Queueing(outputs: Outputs, which: set<OutputId>, o: OutputId)
    requires o in outputs
    ensures var queued := QueueRedrawOn(outputs, which);
      && o in queued
      && SameButOwed(queued[o], outputs[o])
      && (queued[o].redrawState.IsPending() <==> o in which || outputs[o].redrawState.IsPending())
  {
  }

  lemma Unlocking(s: Session, o: OutputId)
    requires o in s.outputs
    ensures var t := Unlock(s);
      && o in t.outputs
      && SameButOwed(t.outputs[o], s.outputs[o].(lockSurface := None))
      && t.outputs[o].redrawState.IsPending()
      && t.frames == s.frames && t.mapped == s.mapped && t.monitors == s.monitors
  {
    Queueing(WithoutLockSurfaces(s.outputs), s.outputs.Keys, o);
  }

  /** Going on to lock queues every output, if there is one. */
  lemma Continuing(s: Session, o: OutputId)
    requires o in s.outputs
    ensures var t := ContinueToLocking(s);
      && o in t.outputs
      && SameButOwed(t.outputs[o], s.outputs[o])
      && (t.outputs[o].redrawState.IsPending() <==> s.lockState.WaitingForSurfaces? || s.outputs[o].redrawState.IsPending())
      && t.frames == s.frames && t.mapped == s.mapped && t.monitors == s.monitors
  {
    Queueing(s.outputs, s.outputs.Keys, o);
  }

  lemma Redrawing(s: Session, o: OutputId, outcome: RenderOutcome)
    requires Enabled(s, Redrawn(o, outcome))
    ensures var t := RedrawOutput(s, o, outcome).outputs[o];
      && !t.redrawState.IsPending()
      && AwaitedBy(t.redrawState) == AwaitsWord(Moment(s, Redrawn(o, outcome)), o).GetOr(AwaitedBy(s.outputs[o].redrawState))
      && t.lockSurface == s.outputs[o].lockSurface
  {
  }

  // ----- every step says what the words say

  /** All parts of one output after a step. */
  ghost predicate FollowsWords(s: Session, t: Session, e: Event, o: OutputId) {
    var m := Moment(s, e);
    && IsKnown(t, o) == KnownWord(m, o).GetOr(IsKnown(s, o))
    && Owes(t, o) == OwesWord(m, o).GetOr(Owes(s, o))
    && Awaits(t, o) == AwaitsWord(m, o).GetOr(Awaits(s, o))
    && Flag(t, o) == FlagWord(m, o).GetOr(Flag(s, o))
    && Shown(t, o) == ShownWord(m, o).GetOr(Shown(s, o))
    && SurfaceOn(t, o) == SurfaceWord(m, o).GetOr(SurfaceOn(s, o))
  }

  lemma RedrawFollows(s: Session, p: OutputId, outcome: RenderOutcome, o: OutputId)
    requires Enabled(s, Redrawn(p, outcome))
    ensures FollowsWords(s, Redraw(s, p, outcome), Redrawn(p, outcome), o)
  {
    if o == p {
      RedrawOfItFollows(s, p, outcome);
    } else {
      RedrawOfAnotherFollows(s, p, outcome, o);
    }
  }

  lemma RedrawOfItFollows(s: Session, o: OutputId, outcome: RenderOutcome)
    requires Enabled(s, Redrawn(o, outcome))
    ensures FollowsWords(s, Redraw(s, o, outcome), Redrawn(o, outcome), o)
  {
    var redrawn := RedrawOutput(s, o, outcome);
    Redrawing(s, o, outcome);
    FlagAfterRedraw(s, o, outcome);
    FramesAfterRedraw(s, o, outcome);
    assert redrawn.lockState == s.lockState by { RedrawTouchesOnlyOne(s, o, outcome); }
    SettlingOf(redrawn, o, o);
  }

  lemma RedrawOfAnotherFollows(s: Session, p: OutputId, outcome: RenderOutcome, o: OutputId)
    requires Enabled(s, Redrawn(p, outcome)) && o != p
    ensures FollowsWords(s, Redraw(s, p, outcome), Redrawn(p, outcome), o)
  {
    var redrawn := RedrawOutput(s, p, outcome);
    RedrawTouchesOnlyOne(s, p, outcome);
    FlagAfterRedraw(s, p, outcome);
    FramesAfterRedraw(s, p, outcome);
    SettlingOf(redrawn, p, o);
  }

  /** What looking at the lock state after a redraw of `p` does to `o`. */
  lemma SettlingOf(s: Session, p: OutputId, o: OutputId)
    requires p in s.outputs
    ensures var t := SettleAfterRedraw(s, p);
      && t.frames == s.frames
      && (o in t.outputs <==> o in s.outputs)
      && (o in s.outputs ==>
            if s.lockState.Locking? && s.outputs[p].lockRenderState == RenderedUnlocked then
              SameButOwed(t.outputs[o], s.outputs[o].(lockSurface := None)) && t.outputs[o].redrawState.IsPending()
            else t.outputs[o] == s.outputs[o])
  {
    SettlingTouchesNothingElse(s, p);
    if o in s.outputs {
      Unlocking(s, o);
    }
  }

  /** Apart from unlocking, looking at the lock state changes nothing of the outputs. */
  lemma SettlingTouchesNothingElse(s: Session, p: OutputId)
    requires p in s.outputs
    ensures var t := SettleAfterRedraw(s, p);
      if s.lockState.Locking? && s.outputs[p].lockRenderState == RenderedUnlocked then t == Unlock(s)
      else t.outputs == s.outputs && t.frames == s.frames
    ensures Unlock(s).outputs.Keys == s.outputs.Keys
  {
  }

  lemma RemovalFollows(s: Session, p: OutputId, moved: set<OutputId>, overlayClosed: bool, o: OutputId)
    requires p in s.outputs
    ensures var e := OutputRemoved(p, moved, overlayClosed);
      FollowsWords(s, RemoveOutput(s, p, moved, overlayClosed), e, o)
  {
    var e, forgotten := OutputRemoved(p, moved, overlayClosed), ForgetOutput(s, p, moved);
    var settled := SettleAfterRemoval(forgotten);
    LockStepOfRemoval(s, p, moved, overlayClosed);
    SettlingQueuesIff(forgotten);
    assert forgotten.outputs.Keys == s.outputs.Keys - {p} && forgotten.frames == s.frames - {p};
    if o in s.outputs && o != p {
      Queueing(s.outputs, moved, o);
      Queueing(forgotten.outputs, forgotten.outputs.Keys, o);
      Queueing(settled.outputs, settled.outputs.Keys, o);
    }
  }

  lemma SettlingQueuesIff(s: Session)
    ensures var t := SettleAfterRemoval(s);
      && t.outputs == (if t.lockState.Locking? && s.lockState.WaitingForSurfaces? then QueueRedrawAll(s.outputs) else s.outputs)
      && t.frames == s.frames
  {
  }

  lemma CommitFollows(s: Session, e: Event, o: OutputId)
    requires Enabled(s, e) && e.SurfaceCommitted?
    ensures FollowsWords(s, Step(s, e), e, o)
  {
    LockStepOfCommit(s, e);
    var committed := AfterCommit(s, e.committed, e.nowMapped);
    if o in s.outputs {
      Continuing(committed, o);
      if e.at.Some? {
        Queueing(committed.outputs, {e.at.value}, o);
      }
    }
  }

  lemma DeadlineFollows(s: Session, e: Event, o: OutputId)
    requires Enabled(s, e) && e.DeadlineExpired?
    ensures FollowsWords(s, Step(s, e), e, o)
  {
    if o in s.outputs {
      Continuing(s, o);
    }
  }

  lemma AddFollows(s: Session, p: OutputId, moved: set<OutputId>, o: OutputId)
    requires p !in s.outputs
    ensures FollowsWords(s, AddOutput(s, p, moved), OutputAdded(p, moved), o)
  {
  }

  lemma UnlockFollows(s: Session, o: OutputId)
    ensures FollowsWords(s, Step(s, UnlockRequested), UnlockRequested, o)
  {
    if o in s.outputs {
      Unlocking(s, o);
      var t := Unlock(s);
      Queueing(t.outputs, t.outputs.Keys, o);
    }
  }

  lemma VBlankFollows(s: Session, e: Event, o: OutputId)
    requires Enabled(s, e) && (e.VBlankArrived? || e.EstimatedTimerExpired?)
    ensures FollowsWords(s, Step(s, e), e, o)
  {
  }

  lemma OthersFollow(s: Session, e: Event, o: OutputId)
    requires Enabled(s, e)
    requires e.LockRequested? || e.LockSurfaceCreated? || e.RedrawRequested?
    ensures FollowsWords(s, Step(s, e), e, o)
  {
  }

  lemma PowerFollows(s: Session, e: Event, o: OutputId)
    requires e.MonitorsDeactivated? || e.MonitorsActivated?
    ensures FollowsWords(s, Step(s, e), e, o)
  {
  }

  lemma StepFollows(s: Session, e: Event, o: OutputId)
    requires Enabled(s, e)
    ensures FollowsWords(s, Step(s, e), e, o)
  {
    match e
    case Redrawn(p, outcome) => RedrawFollows(s, p, outcome, o);
    case OutputRemoved(p, moved, overlayClosed) => RemovalFollows(s, p, moved, overlayClosed, o);
    case SurfaceCommitted(_, _, _) => CommitFollows(s, e, o);
    case DeadlineExpired(_) => DeadlineFollows(s, e, o);
    case OutputAdded(p, moved) => AddFollows(s, p, moved, o);
    case UnlockRequested => UnlockFollows(s, o);
    case VBlankArrived(_, _) => VBlankFollows(s, e, o);
    case EstimatedTimerExpired(_, _) => VBlankFollows(s, e, o);
    case MonitorsDeactivated => PowerFollows(s, e, o);
    case MonitorsActivated => PowerFollows(s, e, o);
    case _ => OthersFollow(s, e, o);
  }

  /**
    The history of an output. After any run each part of it is what was said last, and so an output
    owes a redraw exactly if something asked for one since it was last redrawn.
   */
  lemma OutputIsItsHistory(s: Session, events: seq<Event>, o: OutputId)
    requires ValidRun(s, events)
    ensures var t, history := Run(s, events), History(s, events);
      && IsKnown(t, o) == LastWord((m: Moment) => KnownWord(m, o), history, IsKnown(s, o))
      && Owes(t, o) == LastWord((m: Moment) => OwesWord(m, o), history, Owes(s, o))
      && Awaits(t, o) == LastWord((m: Moment) => AwaitsWord(m, o), history, Awaits(s, o))
      && Flag(t, o) == LastWord((m: Moment) => FlagWord(m, o), history, Flag(s, o))
      && Shown(t, o) == LastWord((m: Moment) => ShownWord(m, o), history, Shown(s, o))
      && SurfaceOn(t, o) == LastWord((m: Moment) => SurfaceWord(m, o), history, SurfaceOn(s, o))
  {
    forall s, e | Enabled(s, e) ensures FollowsWords(s, Step(s, e), e, o) {
      StepFollows(s, e, o);
    }
    PartIsLastWord((s: Session) => IsKnown(s, o), (m: Moment) => KnownWord(m, o), s, events);
    PartIsLastWord((s: Session) => Owes(s, o), (m: Moment) => OwesWord(m, o), s, events);
    PartIsLastWord((s: Session) => Awaits(s, o), (m: Moment) => AwaitsWord(m, o), s, events);
    PartIsLastWord((s: Session) => Flag(s, o), (m: Moment) => FlagWord(m, o), s, events);
    PartIsLastWord((s: Session) => Shown(s, o), (m: Moment) => ShownWord(m, o), s, events);
    PartIsLastWord((s: Session) => SurfaceOn(s, o), (m: Moment) => SurfaceWord(m, o), s, events);
  }

  /** The event asks for a redraw of this output, which has not been redrawn or removed since. */
  ghost predicate IsUnpaid(history: seq<Moment>, i: int, o: OutputId) {
    && 0 <= i < |history|
    && OwesWord(history[i], o) == Some(true)
    && forall j | i < j < |history| :: !Redraws(history[j].e, o) && !Removes(history[j].e, o)
  }

  /** Of the events that ask for it since then, the last one has the last word. */
  lemma {:induction false} LastAsk(history: seq<Moment>, i: int, o: OutputId)
    requires IsUnpaid(history, i, o)
    ensures LastWord((m: Moment) => OwesWord(m, o), history, false)
    decreases |history| - i
  {
    var word := (m: Moment) => OwesWord(m, o);
    if j :| i < j < |history| && word(history[j]).Some? {
      LastAsk(history, j, o);
    } else {
      assert IsLastWord(word, history, i);
      LastWordIff(word, history, false, true);
    }
  }

  /** From startup: a redraw is owed exactly if one was asked for since the output was last redrawn. */
  lemma OwesIffAsked(blanks: bool, events: seq<Event>, o: OutputId)
    requires ValidRun(Initial(blanks), events)
    ensures Owes(Run(Initial(blanks), events), o) <==> exists i :: IsUnpaid(History(Initial(blanks), events), i, o)
  {
    var word, history := (m: Moment) => OwesWord(m, o), History(Initial(blanks), events);
    OutputIsItsHistory(Initial(blanks), events, o);
    LastWordIff(word, history, false, true);
    if i :| IsLastWord(word, history, i) && word(history[i]).value {
      assert IsUnpaid(history, i, o);
    }
    if i :| IsUnpaid(history, i, o) {
      LastAsk(history, i, o);
    }
  }

  lemma MappedAndMonitorsStep(s: Session, e: Event, surface: SurfaceId)
    requires Enabled(s, e)
    ensures IsMapped(Step(s, e), surface) == MappedWord(Moment(s, e), surface).GetOr(IsMapped(s, surface))
    ensures AreMonitorsActive(Step(s, e)) == MonitorsWord(Moment(s, e)).GetOr(AreMonitorsActive(s))
  {
    if e.Redrawn? {
      RedrawTouchesOnlyOne(s, e.output, e.outcome);
      assert RedrawOutput(s, e.output, e.outcome).mapped == s.mapped;
    } else if e.OutputRemoved? {
      assert ForgetOutput(s, e.output, e.moved).mapped == s.mapped;
      assert ForgetOutput(s, e.output, e.moved).monitors == s.monitors;
    }
  }

  lemma MappedAndMonitorsAreLastWords(s: Session, events: seq<Event>, surface: SurfaceId)
    requires ValidRun(s, events)
    ensures var t, history := Run(s, events), History(s, events);
      && IsMapped(t, surface) == LastWord((m: Moment) => MappedWord(m, surface), history, IsMapped(s, surface))
      && AreMonitorsActive(t) == LastWord(MonitorsWord, history, AreMonitorsActive(s))
  {
    forall s, e | Enabled(s, e)
      ensures IsMapped(Step(s, e), surface) == MappedWord(Moment(s, e), surface).GetOr(IsMapped(s, surface))
      ensures AreMonitorsActive(Step(s, e)) == MonitorsWord(Moment(s, e)).GetOr(AreMonitorsActive(s))
    {
      MappedAndMonitorsStep(s, e, surface);
    }
    PartIsLastWord((s: Session) => IsMapped(s, surface), (m: Moment) => MappedWord(m, surface), s, events);
    PartIsLastWord(AreMonitorsActive, MonitorsWord, s, events);
  }
}

/**
  The session as a function of its history.

  For every part of the session there is a `word`: what an event in some state says about that part,
  or nothing. The part is then what was said last. The words are written per part rather than per
  operation, and do not refer to the operations, so they are a second description of all of them.
 */
module SessionLockHistory {
  import opened Options
  import opened LastWords
  import opened SessionLock
  import opened SessionLockInvariants

  /** An event with the state in which it happened. */
  datatype Moment = Moment(s: Session, e: Event)

  function History(s: Session, events: seq<Event>): seq<Moment>
    requires ValidRun(s, events)
    decreases |events|
  {
    if events == [] then [] else [Moment(s, events[0])] + History(Step(s, events[0]), events[1..])
  }

  /** Every step changes `part` to what the word says, and not at all if it says nothing. */
  ghost predicate IsDecidedBy<V>(part: Session -> V, word: Moment -> Option<V>) {
    forall s, e | Enabled(s, e) :: part(Step(s, e)) == word(Moment(s, e)).GetOr(part(s))
  }

  /** Then after any run the part is what was said last. */
  lemma {:induction false} PartIsLastWord<V>(part: Session -> V, word: Moment -> Option<V>, s: Session, events: seq<Event>)
    requires IsDecidedBy(part, word) && ValidRun(s, events)
    ensures part(Run(s, events)) == LastWord(word, History(s, events), part(s))
    decreases |events|
  {
    if events != [] {
      var t := Step(s, events[0]);
      PartIsLastWord(part, word, t, events[1..]);
      LastWordPrepend(word, Moment(s, events[0]), History(t, events[1..]), part(s));
    }
  }

  // ----- the lock state

  /** Every output but those in `except` counts as locked. */
  predicate OthersLocked(s: Session, except: set<OutputId>) {
    forall o | o in s.outputs && o !in except :: s.outputs[o].lockRenderState == RenderedLocked
  }

  predicate OthersReady(s: Session, mapped: set<SurfaceId>, except: set<OutputId>) {
    forall o | o in s.outputs && o !in except ::
      s.outputs[o].lockSurface.Some? && s.outputs[o].lockSurface.value.id in mapped
  }

  /** A lock frame was needed on this output, and the render failed. */
  predicate LockFrameFails(s: Session, e: Event) {
    && e.Redrawn? && s.lockState.Locking? && s.monitors.active && e.outcome.IsSkipped()
    && e.output in s.outputs && s.outputs[e.output].lockRenderState == RenderedUnlocked
  }

  /** The request is no longer held back by missing lock surfaces. */
  predicate StopsWaiting(s: Session, e: Event) {
    && s.lockState.WaitingForSurfaces?
    && match e
       case DeadlineExpired(_) => true
       case SurfaceCommitted(surface, nowMapped, Some(_)) =>
         OthersReady(s, if nowMapped then s.mapped + {surface} else s.mapped - {surface}, {})
       case OutputRemoved(o, _, _) => OthersReady(s, s.mapped, {o})
       case _ => false
  }

  predicate StartsLocking(s: Session, e: Event) {
    StopsWaiting(s, e) && Remaining(s, e) != {}
  }

  /** The outputs that an event leaves. */
  function Remaining(s: Session, e: Event): set<OutputId> {
    if e.OutputRemoved? then s.outputs.Keys - {e.output} else s.outputs.Keys
  }

  /** The last output that was missing is locked, or gone. */
  predicate CompletesLocking(s: Session, e: Event) {
    && s.lockState.Locking?
    && match e
       case Redrawn(o, _) => !LockFrameFails(s, e) && OthersLocked(s, {o})
       case OutputRemoved(o, _, _) => OthersLocked(s, {o})
       case _ => false
  }

  /** A new request is granted at once: nothing to hide, or the holder died. */
  predicate GrantsAtOnce(s: Session, e: Event) {
    e.LockRequested? && ((s.lockState.Unlocked? && s.outputs.Keys == {}) || (s.lockState.Locked? && !e.holderAlive))
  }

  predicate Releases(s: Session, e: Event) {
    e.UnlockRequested? || LockFrameFails(s, e)
  }

  function LockWord(m: Moment): Option<LockState> {
    var (s, e) := (m.s, m.e);
    if Releases(s, e) then Some(Unlocked)
    else if GrantsAtOnce(s, e) then Some(Locked(LockRequest(s.nextRequest, e.client)))
    else if e.LockRequested? && s.lockState.Unlocked? then
      Some(WaitingForSurfaces(LockRequest(s.nextRequest, e.client), s.nextToken))
    else if StartsLocking(s, e) then Some(Locking(s.lockState.confirmation))
    else if StopsWaiting(s, e) || CompletesLocking(s, e) then Some(Locked(s.lockState.confirmation))
    else None
  }

  lemma LockStep(s: Session, e: Event)
    requires Enabled(s, e)
    ensures Step(s, e).lockState == LockWord(Moment(s, e)).GetOr(s.lockState)
  {
    match e
    case Redrawn(o, outcome) => LockStepOfRedraw(s, o, outcome);
    case OutputRemoved(o, moved, overlayClosed) => LockStepOfRemoval(s, o, moved, overlayClosed);
    case SurfaceCommitted(_, _, _) => LockStepOfCommit(s, e);
    case DeadlineExpired(_) => LockStepOfDeadline(s, e);
    case _ => LockStepOfOthers(s, e);
  }

  lemma LockStepOfOthers(s: Session, e: Event)
    requires Enabled(s, e) && !e.Redrawn? && !e.OutputRemoved? && !e.SurfaceCommitted? && !e.DeadlineExpired?
    ensures Step(s, e).lockState == LockWord(Moment(s, e)).GetOr(s.lockState)
  {
    EmptyMap(s.outputs);
  }

  lemma LockStepOfDeadline(s: Session, e: Event)
    requires Enabled(s, e) && e.DeadlineExpired?
    ensures Step(s, e).lockState == LockWord(Moment(s, e)).GetOr(s.lockState)
  {
    EmptyMap(s.outputs);
  }

  lemma EmptyMap(outputs: Outputs)
    ensures outputs == map[] <==> outputs.Keys == {}
  {
  }

  lemma LockStepOfCommit(s: Session, e: Event)
    requires Enabled(s, e) && e.SurfaceCommitted?
    ensures Step(s, e).lockState == LockWord(Moment(s, e)).GetOr(s.lockState)
  {
    EmptyMap(s.outputs);
  }

  lemma LockStepOfRemoval(s: Session, o: OutputId, moved: set<OutputId>, overlayClosed: bool)
    requires o in s.outputs
    ensures var e := OutputRemoved(o, moved, overlayClosed);
      RemoveOutput(s, o, moved, overlayClosed).lockState == LockWord(Moment(s, e)).GetOr(s.lockState)
  {
    var e, forgotten := OutputRemoved(o, moved, overlayClosed), ForgetOutput(s, o, moved);
    EmptyMap(forgotten.outputs);
    assert forgotten.outputs.Keys == s.outputs.Keys - {o};
    forall p | p in forgotten.outputs
      ensures forgotten.outputs[p].lockRenderState == s.outputs[p].lockRenderState
      ensures forgotten.outputs[p].lockSurface == s.outputs[p].lockSurface
    {
    }
    assert AllRenderedLocked(forgotten.outputs) <==> OthersLocked(s, {o});
  }

  lemma LockStepOfRedraw(s: Session, o: OutputId, outcome: RenderOutcome)
    requires Enabled(s, Redrawn(o, outcome))
    ensures Redraw(s, o, outcome).lockState == LockWord(Moment(s, Redrawn(o, outcome))).GetOr(s.lockState)
  {
    var redrawn := RedrawOutput(s, o, outcome);
    RedrawTouchesOnlyOne(s, o, outcome);
    FlagAfterRedraw(s, o, outcome);
    assert redrawn.outputs[o].lockRenderState == RenderedLocked ==>
      (AllRenderedLocked(redrawn.outputs) <==> OthersLocked(s, {o}));
  }

  lemma FlagAfterRedraw(s: Session, o: OutputId, outcome: RenderOutcome)
    requires o in s.outputs
    ensures RedrawOutput(s, o, outcome).outputs[o].lockRenderState ==
      if s.monitors.active && outcome.IsSkipped() then s.outputs[o].lockRenderState
      else if s.lockState.IsLocked() then RenderedLocked
      else RenderedUnlocked
  {
  }

  /** The lock state after any run. */
  lemma LockStateIsLastWord(s: Session, events: seq<Event>)
    requires ValidRun(s, events)
    ensures Run(s, events).lockState == LastWord(LockWord, History(s, events), s.lockState)
  {
    var part := (s: Session) => s.lockState;
    forall s, e | Enabled(s, e) ensures part(Step(s, e)) == LockWord(Moment(s, e)).GetOr(part(s)) {
      LockStep(s, e);
    }
    PartIsLastWord(part, LockWord, s, events);
  }

  // ----- the answers

  function Answers(m: Moment): seq<Resolution> {
    var (s, e) := (m.s, m.e);
    var word := LockWord(m);
    if e.LockRequested? && word.None? then [Dropped(s.nextRequest)]
    else if Releases(s, e) && s.lockState.Held().Some? then [Dropped(s.lockState.confirmation.id)]
    else if word.Some? && word.value.Locked? then [Confirmed(word.value.lock.id, FramesAfter(m))]
    else []
  }

  /** What the outputs show once they were redrawn or removed. */
  function FramesAfter(m: Moment): map<OutputId, Frame> {
    var (s, e) := (m.s, m.e);
    if e.OutputRemoved? then s.frames - {e.output}
    else if e.Redrawn? && s.monitors.active && !e.outcome.IsSkipped() then
      s.frames[e.output := if s.lockState.IsLocked() then LockFrame else SessionFrame]
    else s.frames
  }

  /** A request is refused exactly when it changes nothing, and confirmed exactly when it is granted. */
  lemma AnswersStep(s: Session, e: Event)
    requires Enabled(s, e)
    ensures Step(s, e).log == s.log + Answers(Moment(s, e))
  {
    LockStep(s, e);
    match e
    case Redrawn(o, outcome) => AnswersStepOfRedraw(s, o, outcome);
    case OutputRemoved(o, moved, overlayClosed) => AnswersStepOfRemoval(s, o, moved, overlayClosed);
    case SurfaceCommitted(_, _, _) => AnswersStepOfCommit(s, e);
    case _ => AnswersStepOfOthers(s, e);
  }

  lemma AnswersStepOfOthers(s: Session, e: Event)
    requires Enabled(s, e) && !e.Redrawn? && !e.OutputRemoved? && !e.SurfaceCommitted?
    ensures Step(s, e).log == s.log + Answers(Moment(s, e))
  {
    EmptyMap(s.outputs);
  }

  lemma AnswersStepOfCommit(s: Session, e: Event)
    requires Enabled(s, e) && e.SurfaceCommitted?
    ensures Step(s, e).log == s.log + Answers(Moment(s, e))
  {
    EmptyMap(s.outputs);
  }

  lemma AnswersStepOfRemoval(s: Session, o: OutputId, moved: set<OutputId>, overlayClosed: bool)
    requires o in s.outputs
    ensures var e := OutputRemoved(o, moved, overlayClosed);
      RemoveOutput(s, o, moved, overlayClosed).log == s.log + Answers(Moment(s, e))
  {
    LockStepOfRemoval(s, o, moved, overlayClosed);
    var forgotten := ForgetOutput(s, o, moved);
    assert forgotten.log == s.log && forgotten.frames == s.frames - {o};
    AnswersOfSettling(forgotten);
  }

  lemma AnswersOfSettling(s: Session)
    ensures var t := SettleAfterRemoval(s);
      t.log == s.log + if t.lockState.Locked? && !s.lockState.Locked? then [Confirmed(t.lockState.lock.id, s.frames)] else []
  {
  }

  lemma AnswersStepOfRedraw(s: Session, o: OutputId, outcome: RenderOutcome)
    requires Enabled(s, Redrawn(o, outcome))
    ensures Redraw(s, o, outcome).log == s.log + Answers(Moment(s, Redrawn(o, outcome)))
  {
    LockStepOfRedraw(s, o, outcome);
    var redrawn := RedrawOutput(s, o, outcome);
    RedrawTouchesOnlyOne(s, o, outcome);
    FramesAfterRedraw(s, o, outcome);
    FlagAfterRedraw(s, o, outcome);
  }

  lemma FramesAfterRedraw(s: Session, o: OutputId, outcome: RenderOutcome)
    requires o in s.outputs
    ensures RedrawOutput(s, o, outcome).frames == FramesAfter(Moment(s, Redrawn(o, outcome)))
    ensures RedrawOutput(s, o, outcome).log == s.log
  {
  }

  /** The answers given during a run are those to its events, in order. */
  function AllAnswers(history: seq<Moment>): seq<Resolution> {
    if history == [] then [] else Answers(history[0]) + AllAnswers(history[1..])
  }

  lemma {:induction false} LogIsAllAnswers(s: Session, events: seq<Event>)
    requires ValidRun(s, events)
    ensures Run(s, events).log == s.log + AllAnswers(History(s, events))
    decreases |events|
  {
    if events != [] {
      AnswersStep(s, events[0]);
      LogIsAllAnswers(Step(s, events[0]), events[1..]);
      assert History(s, events)[1..] == History(Step(s, events[0]), events[1..]);
    }
  }

  // ----- who holds the lock

  /** The holder of the lock gives it up, or died and is replaced. */
  predicate TakesAway(e: Event) {
    e.UnlockRequested? || (e.LockRequested? && !e.holderAlive)
  }

  /** A locked session changes hands only by unlocking or by replacing a dead holder. */
  lemma HolderChangesIff(s: Session, e: Event)
    requires Enabled(s, e) && s.lockState.Locked? && s.lockState.lock.id < s.nextRequest
    ensures Step(s, e).lockState != s.lockState <==> TakesAway(e)
    ensures e.UnlockRequested? ==> Step(s, e).lockState == Unlocked
    ensures e.LockRequested? && !e.holderAlive ==> Step(s, e).lockState == Locked(LockRequest(s.nextRequest, e.client))
    ensures e.LockRequested? && e.holderAlive ==> Step(s, e).log == s.log + [Dropped(s.nextRequest)]
  {
    LockStep(s, e);
    AnswersStep(s, e);
  }

  /** The lock state is about this request. */
  predicate Concerns(lockState: LockState, id: nat) {
    match lockState
    case Unlocked => false
    case WaitingForSurfaces(request, _) => request.id == id
    case Locking(request) => request.id == id
    case Locked(request) => request.id == id
  }

  lemma {:induction false} RequestIsNotResumed(s: Session, events: seq<Event>, id: nat)
    requires ValidRun(s, events) && id < s.nextRequest && !Concerns(s.lockState, id)
    ensures !Concerns(Run(s, events).lockState, id)
    decreases |events|
  {
    if events != [] {
      LockStep(s, events[0]);
      StepCountsRequests(s, events[0]);
      RequestIsNotResumed(Step(s, events[0]), events[1..], id);
    }
  }

  /** Over whole runs: a lock is kept exactly as long as it is neither given up nor taken over. */
  lemma {:induction false} LockIsKeptIff(s: Session, events: seq<Event>)
    requires ValidRun(s, events) && s.lockState.Locked? && s.lockState.lock.id < s.nextRequest
    ensures Run(s, events).lockState == s.lockState <==> forall i | 0 <= i < |events| :: !TakesAway(events[i])
    decreases |events|
  {
    if events != [] {
      var e, rest := events[0], events[1..];
      var t := Step(s, e);
      HolderChangesIff(s, e);
      StepCountsRequests(s, e);
      if TakesAway(e) {
        RequestIsNotResumed(t, rest, s.lockState.lock.id);
      } else {
        LockIsKeptIff(t, rest);
        assert (forall i | 0 <= i < |events| :: !TakesAway(events[i])) <==> (forall i | 0 <= i < |rest| :: !TakesAway(rest[i])) by {
          assert forall i | 0 < i < |events| :: events[i] == rest[i - 1];
        }
      }
    }
  }

  lemma StepCountsRequests(s: Session, e: Event)
    requires Enabled(s, e)
    ensures Step(s, e).nextRequest == s.nextRequest + if e.LockRequested? then 1 else 0
  {
    if e.Redrawn? {
      assert RedrawOutput(s, e.output, e.outcome).nextRequest == s.nextRequest;
    } else if e.OutputRemoved? {
      assert ForgetOutput(s, e.output, e.moved).nextRequest == s.nextRequest;
    }
  }

  function LockRequests(events: seq<Event>): nat {
    if events == [] then 0 else (if events[0].LockRequested? then 1 else 0) + LockRequests(events[1..])
  }

  /** Requests are numbered in the order in which they were made. */
  lemma {:induction false} RequestsAreCounted(s: Session, events: seq<Event>)
    requires ValidRun(s, events)
    ensures Run(s, events).nextRequest == s.nextRequest + LockRequests(events)
    decreases |events|
  {
    if events != [] {
      StepCountsRequests(s, events[0]);
      RequestsAreCounted(Step(s, events[0]), events[1..]);
    }
  }
}

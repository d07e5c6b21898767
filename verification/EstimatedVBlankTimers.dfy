/**
  The estimated-VBlank timers against the redraw states that hold their tokens.

  The timer's handler treats a redraw state without the timer as unreachable. That is right as
  long as no VBlank arrives for an output that is waiting for its timer instead; the handler for
  VBlanks itself notes that some kernels send such events.
 */
module EstimatedVBlankTimers {
  import opened SessionLock
  import opened SessionLockInvariants
  import opened SessionLockRuns

  /** Every estimated-VBlank timer is the one its output waits for, and the other way round. */
  ghost predicate TimersAreExact(s: Session) {
    && (forall o | IsEstimating(s, o) :: IsTimerOf(s, TokenOf(s, o), o))
    && (forall t, o | IsTimerOf(s, t, o) :: IsEstimating(s, o) && TokenOf(s, o) == t)
  }

  predicate IsEstimating(s: Session, o: OutputId) {
    o in s.outputs && s.outputs[o].redrawState.IsEstimated()
  }

  function TokenOf(s: Session, o: OutputId): Token
    requires IsEstimating(s, o)
  {
    s.outputs[o].redrawState.token
  }

  predicate IsTimerOf(s: Session, t: Token, o: OutputId) {
    t in s.timers && s.timers[t] == EstimatedVBlank(o)
  }

  /** A VBlank for an output that has its estimated timer running instead. */
  predicate IsRogueVBlank(s: Session, e: Event) {
    e.VBlankArrived? && IsEstimating(s, e.output)
  }

  ghost predicate SameEstimates(s: Session, t: Session) {
    && (forall o :: IsEstimating(s, o) <==> IsEstimating(t, o))
    && (forall o | IsEstimating(s, o) :: TokenOf(s, o) == TokenOf(t, o))
    && (forall token, o :: IsTimerOf(s, token, o) <==> IsTimerOf(t, token, o))
  }

  lemma SameEstimatesStayExact(s: Session, t: Session)
    requires TimersAreExact(s) && SameEstimates(s, t)
    ensures TimersAreExact(t)
  {
  }

  /** Only `o` and its own timers changed, and those still fit together. */
  lemma OneOutputStaysExact(s: Session, t: Session, o: OutputId)
    requires TimersAreExact(s)
    requires forall p | p != o :: IsEstimating(s, p) <==> IsEstimating(t, p)
    requires forall p | p != o && IsEstimating(s, p) :: TokenOf(s, p) == TokenOf(t, p)
    requires forall token, p | p != o :: IsTimerOf(s, token, p) <==> IsTimerOf(t, token, p)
    requires IsEstimating(t, o) ==> IsTimerOf(t, TokenOf(t, o), o)
    requires forall token | IsTimerOf(t, token, o) :: IsEstimating(t, o) && TokenOf(t, o) == token
    ensures TimersAreExact(t)
  {
  }

  /** The tokens of two outputs differ, and the timers of an output have its token. */
  lemma TokensAreDistinct(s: Session, o: OutputId)
    requires TimersAreExact(s) && IsEstimating(s, o)
    ensures forall p | p != o && IsEstimating(s, p) :: TokenOf(s, p) != TokenOf(s, o)
    ensures forall token, p | p != o && IsTimerOf(s, token, p) :: token != TokenOf(s, o)
  {
    assert IsTimerOf(s, TokenOf(s, o), o);
  }

  lemma LockingMovesNoEstimate(s: Session)
    requires TimersMatch(s)
    ensures SameEstimates(s, ContinueToLocking(s))
    ensures SameEstimates(s, MaybeContinueToLocking(s))
  {
  }

  lemma UnlockingMovesNoEstimate(s: Session)
    requires TimersMatch(s)
    ensures SameEstimates(s, Unlock(s))
  {
  }

  lemma RedrawStaysExact(s: Session, o: OutputId, outcome: RenderOutcome)
    requires TimersAreExact(s) && TimersMatch(s) && Enabled(s, Redrawn(o, outcome))
    ensures TimersAreExact(Redraw(s, o, outcome))
  {
    var redrawn := RedrawOutput(s, o, outcome);
    RedrawOutputStaysExact(s, o, outcome);
    RedrawOutputKeepsTimers(s, o, outcome);
    SettlingRedrawMovesNoEstimate(redrawn, o);
    SameEstimatesStayExact(redrawn, SettleAfterRedraw(redrawn, o));
  }

  lemma SettlingRedrawMovesNoEstimate(s: Session, o: OutputId)
    requires TimersMatch(s) && o in s.outputs
    ensures SameEstimates(s, SettleAfterRedraw(s, o))
  {
    UnlockingMovesNoEstimate(s);
  }

  lemma RedrawOutputStaysExact(s: Session, o: OutputId, outcome: RenderOutcome)
    requires TimersAreExact(s) && TimersMatch(s) && Enabled(s, Redrawn(o, outcome))
    ensures TimersAreExact(RedrawOutput(s, o, outcome))
  {
    var t := RedrawOutput(s, o, outcome);
    if IsEstimating(s, o) {
      TokensAreDistinct(s, o);
    }
    RedrawTouchesOnlyOne(s, o, outcome);
    forall token | IsTimerOf(t, token, o) ensures IsEstimating(t, o) && TokenOf(t, o) == token {
      assert IsTimerOf(s, token, o) || token == s.nextToken;
    }
    OneOutputStaysExact(s, t, o);
  }

  lemma RemovalStaysExact(s: Session, o: OutputId, moved: set<OutputId>, overlayClosed: bool)
    requires TimersAreExact(s) && TimersMatch(s) && o in s.outputs
    ensures TimersAreExact(RemoveOutput(s, o, moved, overlayClosed))
  {
    var forgotten := ForgetOutput(s, o, moved);
    ForgettingStaysExact(s, o, moved);
    SettlingRemovalMovesNoEstimate(forgotten);
    var settled := SettleAfterRemoval(forgotten);
    SameEstimatesStayExact(forgotten, settled);
    SameEstimatesStayExact(settled, settled.(outputs := QueueRedrawAll(settled.outputs)));
  }

  lemma ForgettingStaysExact(s: Session, o: OutputId, moved: set<OutputId>)
    requires TimersAreExact(s) && TimersMatch(s) && o in s.outputs
    ensures TimersAreExact(ForgetOutput(s, o, moved)) && TimersMatch(ForgetOutput(s, o, moved))
  {
    if IsEstimating(s, o) {
      TokensAreDistinct(s, o);
    }
    var t := ForgetOutput(s, o, moved);
    forall token ensures !IsTimerOf(t, token, o) {
      assert IsTimerOf(t, token, o) ==> IsTimerOf(s, token, o);
    }
    OneOutputStaysExact(s, t, o);
  }

  lemma SettlingRemovalMovesNoEstimate(s: Session)
    requires TimersMatch(s)
    ensures SameEstimates(s, SettleAfterRemoval(s))
  {
    LockingMovesNoEstimate(s);
  }

  lemma CommitStaysExact(s: Session, e: Event)
    requires TimersAreExact(s) && TimersMatch(s) && Enabled(s, e) && e.SurfaceCommitted?
    ensures TimersAreExact(Step(s, e))
  {
    var committed := AfterCommit(s, e.committed, e.nowMapped);
    LockingMovesNoEstimate(committed);
    assert SameEstimates(s, Step(s, e));
    SameEstimatesStayExact(s, Step(s, e));
  }

  lemma QuietStepMovesNoEstimate(s: Session, e: Event)
    requires Enabled(s, e) && IsQuiet(e) && !IsRogueVBlank(s, e) && !e.EstimatedTimerExpired?
    ensures SameEstimates(s, Step(s, e))
  {
  }

  lemma QuietStepStaysExact(s: Session, e: Event)
    requires TimersAreExact(s) && Enabled(s, e) && IsQuiet(e) && !IsRogueVBlank(s, e)
    ensures TimersAreExact(Step(s, e))
  {
    if e.EstimatedTimerExpired? {
      TimerExpiryStaysExact(s, e.token, e.animating);
    } else {
      QuietStepMovesNoEstimate(s, e);
      SameEstimatesStayExact(s, Step(s, e));
    }
  }

  lemma TimerExpiryStaysExact(s: Session, token: Token, animating: bool)
    requires TimersAreExact(s) && Enabled(s, EstimatedTimerExpired(token, animating))
    ensures TimersAreExact(EstimatedVBlankExpired(s, token, animating))
  {
    var o := s.timers[token].output;
    assert IsTimerOf(s, token, o);
    TokensAreDistinct(s, o);
    var t := EstimatedVBlankExpired(s, token, animating);
    forall other ensures !IsTimerOf(t, other, o) {
      assert IsTimerOf(t, other, o) ==> IsTimerOf(s, other, o);
    }
    OneOutputStaysExact(s, t, o);
  }

  lemma LockStepMovesNoEstimate(s: Session, e: Event)
    requires TimersMatch(s) && Enabled(s, e)
    requires e.LockRequested? || e.UnlockRequested? || e.DeadlineExpired?
    ensures SameEstimates(s, Step(s, e))
  {
    if e.LockRequested? {
    } else if e.UnlockRequested? {
      UnlockingMovesNoEstimate(s);
      ActivatingMovesNoEstimate(Unlock(s));
    } else {
      LockingMovesNoEstimate(s);
    }
  }

  lemma ActivatingMovesNoEstimate(s: Session)
    ensures SameEstimates(s, ActivateMonitors(s))
  {
  }

  /**
    The timers stay in step with the redraw states exactly as long as no VBlank arrives for an
    output that is waiting for its estimated-VBlank timer.
   */
  lemma StaysExactIffNotRogue(s: Session, e: Event)
    requires TimersAreExact(s) && TimersMatch(s) && Enabled(s, e)
    ensures TimersAreExact(Step(s, e)) <==> !IsRogueVBlank(s, e)
  {
    if IsRogueVBlank(s, e) {
      assert IsTimerOf(Step(s, e), TokenOf(s, e.output), e.output);
    } else {
      match e
      case LockRequested(_, _) => LockStepMovesNoEstimate(s, e); SameEstimatesStayExact(s, Step(s, e));
      case UnlockRequested => LockStepMovesNoEstimate(s, e); SameEstimatesStayExact(s, Step(s, e));
      case DeadlineExpired(_) => LockStepMovesNoEstimate(s, e); SameEstimatesStayExact(s, Step(s, e));
      case SurfaceCommitted(_, _, _) => CommitStaysExact(s, e);
      case OutputRemoved(o, moved, overlayClosed) => RemovalStaysExact(s, o, moved, overlayClosed);
      case Redrawn(o, outcome) => RedrawStaysExact(s, o, outcome);
      case _ => QuietStepStaysExact(s, e);
    }
  }

  ghost predicate NoRogueVBlank(s: Session, events: seq<Event>)
    requires ValidRun(s, events)
    decreases |events|
  {
    events == [] || (!IsRogueVBlank(s, events[0]) && NoRogueVBlank(Step(s, events[0]), events[1..]))
  }

  /** The handler would accept the redraw state of the output of any timer that runs. */
  ghost predicate HandlerIsSafe(s: Session) {
    forall token | token in s.timers && s.timers[token].EstimatedVBlank? :: HandlerAccepts(s, s.timers[token].output)
  }

  /** In every state on the way. */
  ghost predicate HandlerIsSafeThroughout(s: Session, events: seq<Event>)
    requires ValidRun(s, events)
    decreases |events|
  {
    HandlerIsSafe(s) && (events == [] || HandlerIsSafeThroughout(Step(s, events[0]), events[1..]))
  }

  lemma ExactTimersAreAccepted(s: Session)
    requires TimersAreExact(s)
    ensures HandlerIsSafe(s)
  {
    forall token | token in s.timers && s.timers[token].EstimatedVBlank?
      ensures HandlerAccepts(s, s.timers[token].output)
    {
      assert IsTimerOf(s, token, s.timers[token].output);
    }
  }

  /** A rogue VBlank leaves a timer behind that the handler would not accept. */
  lemma RogueVBlankIsNotAccepted(s: Session, e: Event)
    requires TimersAreExact(s) && Enabled(s, e) && IsRogueVBlank(s, e)
    ensures !HandlerIsSafe(Step(s, e))
  {
    assert IsTimerOf(s, TokenOf(s, e.output), e.output);
    assert TokenOf(s, e.output) in Step(s, e).timers;
  }

  /**
    The handler's unreachable branches are out of reach throughout a run exactly when no VBlank in
    it arrives for an output that is waiting for its estimated-VBlank timer.
   */
  lemma {:induction false} HandlerIsSafeIff(s: Session, events: seq<Event>)
    requires Invariant(s) && TimersAreExact(s) && ValidRun(s, events)
    ensures HandlerIsSafeThroughout(s, events) <==> NoRogueVBlank(s, events)
    decreases |events|
  {
    ExactTimersAreAccepted(s);
    if events != [] {
      var e, t := events[0], Step(s, events[0]);
      if IsRogueVBlank(s, e) {
        RogueVBlankIsNotAccepted(s, e);
      } else {
        StaysExactIffNotRogue(s, e);
        StepKeepsInvariant(s, e);
        HandlerIsSafeIff(t, events[1..]);
      }
    }
  }

  /** In particular from startup. */
  lemma TimerHandlerNeverPanicsIff(blanks: bool, events: seq<Event>)
    requires ValidRun(Initial(blanks), events)
    ensures HandlerIsSafeThroughout(Initial(blanks), events) <==> NoRogueVBlank(Initial(blanks), events)
  {
    HandlerIsSafeIff(Initial(blanks), events);
  }

  /** Some run from here is not safe for the handler. */
  ghost predicate CanBreakHandler(s: Session) {
    exists events :: ValidRun(s, events) && !HandlerIsSafeThroughout(s, events)
  }

  lemma CanBreakHandlerBefore(s: Session, e: Event)
    requires Enabled(s, e) && CanBreakHandler(Step(s, e))
    ensures CanBreakHandler(s)
  {
    var rest :| ValidRun(Step(s, e), rest) && !HandlerIsSafeThroughout(Step(s, e), rest);
    PrependStep(s, e, rest);
    assert ([e] + rest)[1..] == rest;
    assert !HandlerIsSafeThroughout(s, [e] + rest);
  }

  /** Whenever an output waits for its timer, a single VBlank is enough. */
  lemma OneVBlankBreaksTheHandler(s: Session, o: OutputId)
    requires Invariant(s) && TimersAreExact(s) && IsEstimating(s, o)
    ensures CanBreakHandler(s)
  {
    var rogue := VBlankArrived(o, false);
    assert Enabled(s, rogue) && IsRogueVBlank(s, rogue);
    RogueVBlankIsNotAccepted(s, rogue);
    assert ValidRun(Step(s, rogue), []) && !HandlerIsSafeThroughout(Step(s, rogue), []);
    CanBreakHandlerBefore(s, rogue);
  }

  lemma WaitsForItsTimer(s: Session, o: OutputId)
    requires o in s.outputs && s.outputs[o].redrawState.Queued? && s.monitors.active && s.lockState.Unlocked?
    ensures Enabled(s, Redrawn(o, NoDamageUntilTimer))
    ensures IsEstimating(Step(s, Redrawn(o, NoDamageUntilTimer)), o)
  {
  }

  /** Such a run from startup: a redraw without damage, and a VBlank anyway. */
  lemma RogueVBlankBreaksTheHandler(blanks: bool)
    ensures CanBreakHandler(Initial(blanks))
  {
    var added, noDamage := OutputAdded(0, {}), Redrawn(0, NoDamageUntilTimer);
    var s := Step(Initial(blanks), added);
    WaitsForItsTimer(s, 0);
    assert !IsRogueVBlank(Initial(blanks), added) && !IsRogueVBlank(s, noDamage);
    StaysExactIffNotRogue(Initial(blanks), added);
    StepKeepsInvariant(Initial(blanks), added);
    StaysExactIffNotRogue(s, noDamage);
    StepKeepsInvariant(s, noDamage);
    OneVBlankBreaksTheHandler(Step(s, noDamage), 0);
    CanBreakHandlerBefore(s, noDamage);
    CanBreakHandlerBefore(Initial(blanks), added);
  }
}

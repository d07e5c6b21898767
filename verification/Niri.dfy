/**
  The compositor object: the session lock and the redraw loop as methods that update it in place.

  Every method is tied to the function of `SessionLock` with the same name, about which the
  invariants are proved. `frames` and `log` are what an observer would have seen.
 */
module NiriCompositor {
  import opened Options
  import opened SessionLock
  import opened SessionLockInvariants
  import opened SessionLockRuns

  class Niri {
    const blanks: bool
    var lockState: LockState
    var outputs: Outputs
    var monitorsActive: bool
    var timers: map<Token, Timer>
    var nextToken: Token
    var mapped: set<SurfaceId>
    var nextRequest: nat
    ghost var frames: map<OutputId, Frame>
    ghost var log: seq<Resolution>

    ghost function State(): Session
      reads this
    {
      Session(lockState, outputs, Monitors(monitorsActive, blanks), timers, nextToken, mapped, nextRequest, frames, log)
    }

    constructor (blanks: bool)
      ensures State() == Initial(blanks) && Invariant(State()) && Safe(State())
    {
      this.blanks := blanks;
      lockState, outputs, monitorsActive := Unlocked, map[], true;
      timers, nextToken, mapped, nextRequest := map[], 0, {}, 0;
      frames, log := map[], [];
    }

    // ----- redraw queue

    method QueueRedraw(o: OutputId)
      requires o in outputs
      modifies `outputs
      ensures outputs == QueueRedrawOn(old(outputs), {o})
    {
      outputs := outputs[o := outputs[o].(redrawState := outputs[o].redrawState.QueueRedraw())];
    }

    method QueueRedrawAll()
      modifies `outputs
      ensures outputs == SessionLock.QueueRedrawAll(old(outputs))
    {
      ghost var before := outputs;
      var rest := outputs.Keys;
      while rest != {}
        invariant rest <= outputs.Keys == before.Keys
        invariant outputs == QueueRedrawOn(before, before.Keys - rest)
      {
        var o :| o in rest;
        outputs := outputs[o := outputs[o].(redrawState := outputs[o].redrawState.QueueRedraw())];
        rest := rest - {o};
      }
      assert before.Keys - rest == before.Keys;
    }

    // ----- locking and unlocking

    method InsertTimer(timer: Timer) returns (token: Token)
      modifies `timers, `nextToken
      ensures token == old(nextToken) && nextToken == old(nextToken) + 1
      ensures timers == old(timers)[token := timer]
    {
      token := nextToken;
      timers, nextToken := timers[token := timer], nextToken + 1;
    }

    /** Answers the request with `locked`. */
    method Confirm(request: LockRequest)
      modifies `lockState, `log
      ensures State() == SessionLock.Confirm(old(State()), request)
    {
      lockState := Locked(request);
      log := log + [Confirmed(request.id, frames)];
    }

    method Lock(client: nat, holderAlive: bool)
      modifies this
      ensures State() == SessionLock.Lock(old(State()), client, holderAlive)
    {
      var request := LockRequest(nextRequest, client);
      nextRequest := nextRequest + 1;
      if lockState.WaitingForSurfaces? || lockState.Locking? {
        log := log + [Dropped(request.id)];
        return;
      }
      if lockState.Locked? {
        if holderAlive {
          log := log + [Dropped(request.id)];
          return;
        }
        Confirm(request);
        return;
      }
      if outputs == map[] {
        Confirm(request);
      } else {
        var deadline := InsertTimer(Deadline);
        lockState := WaitingForSurfaces(request, deadline);
      }
    }

    method MaybeContinueToLocking()
      modifies this
      ensures State() == SessionLock.MaybeContinueToLocking(old(State()))
    {
      if !lockState.WaitingForSurfaces? {
        return;
      }
      var rest := outputs.Keys;
      while rest != {}
        invariant rest <= outputs.Keys
        invariant forall o | o in outputs && o !in rest :: SurfaceReady(outputs[o], mapped)
        invariant State() == old(State())
      {
        var o :| o in rest;
        if !SurfaceReady(outputs[o], mapped) {
          return;
        }
        rest := rest - {o};
      }
      ContinueToLocking();
    }

    method ContinueToLocking()
      modifies this
      ensures State() == SessionLock.ContinueToLocking(old(State()))
    {
      var taken := lockState;
      lockState := Unlocked;
      match taken
      case WaitingForSurfaces(confirmation, deadline) =>
        timers := timers - {deadline};
        if outputs == map[] {
          Confirm(confirmation);
        } else {
          lockState := Locking(confirmation);
          QueueRedrawAll();
        }
      case _ =>
        lockState := taken;
    }

    method Unlock()
      modifies this
      ensures State() == SessionLock.Unlock(old(State()))
    {
      var taken := lockState;
      lockState := Unlocked;
      if taken.WaitingForSurfaces? {
        timers := timers - {taken.deadline};
      }
      ghost var before := State();
      var rest := outputs.Keys;
      while rest != {}
        invariant rest <= outputs.Keys == before.outputs.Keys
        invariant forall o | o in outputs ::
          outputs[o] == if o in rest then before.outputs[o] else before.outputs[o].(lockSurface := None)
        invariant State() == before.(outputs := outputs)
      {
        var o :| o in rest;
        outputs := outputs[o := outputs[o].(lockSurface := None)];
        rest := rest - {o};
      }
      assert outputs == WithoutLockSurfaces(before.outputs);
      QueueRedrawAll();
      // The confirmation goes out of scope with the state it was taken from.
      if taken.Held().Some? {
        log := log + [Dropped(taken.confirmation.id)];
      }
    }

    method NewLockSurface(surface: LockSurface, output: OutputId)
      modifies `outputs
      ensures State() == SessionLock.NewLockSurface(old(State()), surface, output)
    {
      var request;
      match lockState {
        case Unlocked => return;
        case WaitingForSurfaces(confirmation, _) => request := confirmation;
        case Locking(confirmation) => request := confirmation;
        case Locked(lock) => request := lock;
      }
      if request.client != surface.client || output !in outputs {
        return;
      }
      outputs := outputs[output := outputs[output].(lockSurface := Some(surface))];
    }

    // ----- callbacks of the session lock

    /** The deadline timer fired; it is dropped afterwards. */
    method OnLockDeadline(token: Token)
      requires Enabled(State(), DeadlineExpired(token))
      modifies this
      ensures State() == Step(old(State()), DeadlineExpired(token))
    {
      ContinueToLocking();
      timers := timers - {token};
    }

    /** The lock client asked to unlock. */
    method OnUnlock()
      modifies this
      ensures State() == Step(old(State()), UnlockRequested)
    {
      Unlock();
      ActivateMonitors();
    }

    /** A surface was committed; `at` is an output it is the lock surface of, if there is one. */
    method OnCommit(surface: SurfaceId, nowMapped: bool) returns (ghost at: Option<OutputId>)
      modifies this
      ensures var e := SurfaceCommitted(surface, nowMapped, at);
        Enabled(old(State()), e) && State() == Step(old(State()), e)
      ensures at.None? ==> forall o | o in old(outputs) :: !IsLockSurfaceOf(surface, old(outputs)[o])
    {
      ghost var before := State();
      mapped := if nowMapped then mapped + {surface} else mapped - {surface};
      var rest := outputs.Keys;
      while rest != {}
        invariant rest <= outputs.Keys
        invariant forall o | o in outputs && o !in rest :: !IsLockSurfaceOf(surface, outputs[o])
        invariant State() == AfterCommit(before, surface, nowMapped)
      {
        var o :| o in rest;
        if IsLockSurfaceOf(surface, outputs[o]) {
          at := Some(o);
          if lockState.WaitingForSurfaces? {
            MaybeContinueToLocking();
          } else {
            QueueRedraw(o);
          }
          return;
        }
        rest := rest - {o};
      }
      at := None;
    }

    static predicate IsLockSurfaceOf(surface: SurfaceId, state: OutputState) {
      state.lockSurface.Some? && state.lockSurface.value.id == surface
    }

    // ----- rendering

    /** The backends' render call, with the outcome it happens to have. */
    method BackendRender(o: OutputId, outcome: RenderOutcome)
      requires o in outputs && outputs[o].redrawState.IsQueued()
      requires outcome.IsTimerless() ==> outputs[o].redrawState.Queued?
      modifies `outputs, `timers, `nextToken, `frames
      ensures State() == SessionLock.BackendRender(old(State()), o, outcome)
    {
      if !outcome.IsSkipped() {
        frames := frames[o := if lockState.IsLocked() then LockFrame else SessionFrame];
      }
      var redrawState := outputs[o].redrawState;
      match outcome {
        case SubmittedToKms =>
          if redrawState.WaitingForEstimatedVBlankAndQueued? {
            timers := timers - {redrawState.token};
          }
          redrawState := WaitingForVBlank(false);
        case SubmittedAtOnce =>
          redrawState := Idle;
        case NoDamage =>
          redrawState := Idle;
        case SkippedEarly =>
        case _ =>
          if redrawState.WaitingForEstimatedVBlankAndQueued? {
            redrawState := WaitingForEstimatedVBlank(redrawState.token);
          } else {
            var token := InsertTimer(EstimatedVBlank(o));
            redrawState := WaitingForEstimatedVBlank(token);
          }
      }
      outputs := outputs[o := outputs[o].(redrawState := redrawState)];
    }

    method Redraw(o: OutputId, outcome: RenderOutcome)
      requires Enabled(State(), Redrawn(o, outcome))
      modifies this
      ensures State() == SessionLock.Redraw(old(State()), o, outcome)
    {
      var skipped := true;
      if monitorsActive {
        BackendRender(o, outcome);
        skipped := outcome.IsSkipped();
      }

      var state := outputs[o];
      if skipped {
        match state.redrawState {
          case WaitingForEstimatedVBlank(token) =>
          case WaitingForEstimatedVBlankAndQueued(token) =>
            state := state.(redrawState := WaitingForEstimatedVBlank(token));
          case _ =>
            state := state.(redrawState := Idle);
        }
      }
      if !skipped || !monitorsActive {
        state := state.(lockRenderState := if lockState.IsLocked() then RenderedLocked else RenderedUnlocked);
      }
      outputs := outputs[o := state];
      assert State() == RedrawOutput(old(State()), o, outcome);

      var taken := lockState;
      lockState := Unlocked;
      match taken {
        case Locking(confirmation) =>
          if state.lockRenderState == RenderedUnlocked {
            Unlock();
            log := log + [Dropped(confirmation.id)];
          } else if AllRenderedLocked(outputs) {
            Confirm(confirmation);
          } else {
            lockState := Locking(confirmation);
          }
        case _ =>
          lockState := taken;
      }
    }

    /** Stands for a backend that may do anything its contract allows. */
    method AnyOutcome(redrawState: RedrawState) returns (outcome: RenderOutcome)
      ensures outcome.IsTimerless() ==> redrawState.Queued?
    {
      outcome := *;
      if outcome.IsTimerless() && !redrawState.Queued? {
        outcome := SkippedEarly;
      }
    }

    /**
      Redraws until no output is queued. A failed render while locking unlocks the session and
      queues every output again; even so the loop ends, after at most `Work` redraws.
     */
    method RedrawQueuedOutputs() returns (ghost trace: seq<Event>)
      modifies this
      ensures QueuedOutputs(outputs) == {}
      ensures ValidRun(old(State()), trace) && State() == Run(old(State()), trace)
      ensures forall i | 0 <= i < |trace| :: trace[i].Redrawn?
      ensures |trace| <= Work(old(State()))
      ensures Invariant(old(State())) ==> Invariant(State())
      ensures Invariant(old(State())) && lockState.Locking? ==>
          exists o :: o in outputs && outputs[o].redrawState == WaitingForVBlank(true)
    {
      trace := [];
      ghost var start := State();
      while exists o :: o in outputs && outputs[o].redrawState.IsQueued()
        invariant ValidRun(start, trace) && State() == Run(start, trace)
        invariant forall i | 0 <= i < |trace| :: trace[i].Redrawn?
        invariant |trace| + Work(State()) <= Work(start)
        decreases Work(State())
      {
        var o :| o in outputs && outputs[o].redrawState.IsQueued();
        var outcome := AnyOutcome(outputs[o].redrawState);
        RedrawReducesWork(State(), o, outcome);
        RunAppend(start, trace, Redrawn(o, outcome));
        Redraw(o, outcome);
        trace := trace + [Redrawn(o, outcome)];
      }
      if Invariant(start) {
        RunKeepsInvariant(start, trace);
        if lockState.Locking? {
          var o :| OwesRedraw(outputs, o);
          assert outputs[o].redrawState == WaitingForVBlank(true);
        }
      }
    }

    /** A VBlank from the kernel. */
    method OnVBlank(o: OutputId, animating: bool)
      requires o in outputs
      modifies `outputs
      ensures State() == SessionLock.VBlank(old(State()), o, animating)
    {
      var redrawState := outputs[o].redrawState;
      outputs := outputs[o := outputs[o].(redrawState := Idle)];
      var redrawNeeded := true;
      match redrawState {
        case WaitingForVBlank(needed) => redrawNeeded := needed;
        case _ =>
      }
      if redrawNeeded || animating {
        QueueRedraw(o);
      }
    }

    method OnEstimatedVBlankTimer(token: Token, animating: bool)
      requires Enabled(State(), EstimatedTimerExpired(token, animating))
      modifies `outputs, `timers
      ensures State() == SessionLock.EstimatedVBlankExpired(old(State()), token, animating)
    {
      var o := timers[token].output;
      timers := timers - {token};
      if o !in outputs {
        return;
      }
      var redrawState := outputs[o].redrawState;
      outputs := outputs[o := outputs[o].(redrawState := Idle)];
      match redrawState {
        case WaitingForEstimatedVBlank(_) =>
        case WaitingForEstimatedVBlankAndQueued(_) =>
          outputs := outputs[o := outputs[o].(redrawState := Queued)];
          return;
        case _ => assert false;
      }
      if animating {
        QueueRedraw(o);
      }
    }

    // ----- hotplug and power

    method AddOutput(o: OutputId, moved: set<OutputId>)
      requires o !in outputs
      modifies `outputs, `frames
      ensures State() == SessionLock.AddOutput(old(State()), o, moved)
    {
      var rendered := if lockState.IsLocked() then RenderedLocked else RenderedUnlocked;
      outputs := outputs[o := OutputState(Idle, rendered, None)];
      frames := frames[o := Nothing];
      Repositioned(moved + {o});
    }

    /** Repositioning announced these outputs; the ones it does not know are ignored. */
    method Repositioned(moved: set<OutputId>)
      modifies `outputs
      ensures outputs == QueueRedrawOn(old(outputs), moved)
    {
      ghost var before := outputs;
      var rest := moved * outputs.Keys;
      while rest != {}
        invariant rest <= outputs.Keys == before.Keys
        invariant rest <= moved
        invariant outputs == QueueRedrawOn(before, moved - rest)
      {
        var o :| o in rest;
        QueueRedraw(o);
        rest := rest - {o};
      }
    }

    method RemoveOutput(o: OutputId, moved: set<OutputId>, overlayClosed: bool)
      requires o in outputs
      modifies this
      ensures State() == SessionLock.RemoveOutput(old(State()), o, moved, overlayClosed)
    {
      Repositioned(moved);
      var redrawState := outputs[o].redrawState;
      outputs := outputs - {o};
      frames := frames - {o};
      match redrawState {
        case WaitingForEstimatedVBlank(token) => timers := timers - {token};
        case WaitingForEstimatedVBlankAndQueued(token) => timers := timers - {token};
        case _ =>
      }
      assert State() == ForgetOutput(old(State()), o, moved);

      var taken := lockState;
      lockState := Unlocked;
      match taken {
        case Locking(confirmation) =>
          if AllRenderedLocked(outputs) {
            Confirm(confirmation);
          } else {
            lockState := Locking(confirmation);
          }
        case _ =>
          lockState := taken;
          MaybeContinueToLocking();
      }

      if overlayClosed {
        QueueRedrawAll();
      }
    }

    method DeactivateMonitors()
      modifies `monitorsActive, `frames
      ensures State() == SessionLock.DeactivateMonitors(old(State()))
    {
      if !monitorsActive {
        return;
      }
      monitorsActive := false;
      if blanks {
        frames := map o | o in frames :: Nothing;
      }
    }

    method ActivateMonitors()
      modifies `monitorsActive, `outputs
      ensures State() == SessionLock.ActivateMonitors(old(State()))
    {
      if monitorsActive {
        return;
      }
      monitorsActive := true;
      QueueRedrawAll();
    }
  }

  // ----- termination of the redraw loop

  /** How many redraws can still follow: a failed one while locking queues everything once more. */
  function Work(s: Session): nat {
    (if s.lockState.Locking? then |s.outputs.Keys| else 0) + |QueuedOutputs(s.outputs)|
  }

  lemma RedrawReducesWork(s: Session, o: OutputId, outcome: RenderOutcome)
    requires o in s.outputs && s.outputs[o].redrawState.IsQueued()
    ensures Work(Redraw(s, o, outcome)) < Work(s)
  {
    var redrawn, t := RedrawOutput(s, o, outcome), Redraw(s, o, outcome);
    RedrawTouchesOnlyOne(s, o, outcome);
    assert QueuedOutputs(redrawn.outputs) == QueuedOutputs(s.outputs) - {o};
    assert o in QueuedOutputs(s.outputs);
    if t.outputs != redrawn.outputs {
      assert QueuedOutputs(t.outputs) <= s.outputs.Keys;
      SubsetIsSmaller(QueuedOutputs(t.outputs), s.outputs.Keys);
    }
  }

  lemma SubsetIsSmaller<T>(a: set<T>, b: set<T>)
    requires a <= b
    ensures |a| <= |b|
  {
    assert b == a + (b - a);
  }

  lemma {:induction false} RunAppend(s: Session, events: seq<Event>, e: Event)
    requires ValidRun(s, events) && Enabled(Run(s, events), e)
    ensures ValidRun(s, events + [e])
    ensures Run(s, events + [e]) == Step(Run(s, events), e)
    decreases |events|
  {
    if events == [] {
      assert (events + [e])[1..] == [];
    } else {
      assert (events + [e])[1..] == events[1..] + [e];
      RunAppend(Step(s, events[0]), events[1..], e);
    }
  }
}

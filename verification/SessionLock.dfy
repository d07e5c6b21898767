/**
  The session lock and the redraw states of the outputs, as a state machine.

  `Session` is the part of the compositor that decides when a lock request may be answered with
  `locked`: the lock state, what every output last rendered, the pending redraws and the timers.
  Each function below is one operation of the compositor or of its backend; `Step` puts them
  behind one type of event, so that a run of the compositor is a sequence of events.
 */
module SessionLock {
  import opened Options

  type OutputId = nat
  type SurfaceId = nat
  type Token = nat

  datatype RedrawState =
    | Idle
    | Queued
    | WaitingForVBlank(redrawNeeded: bool)
    | WaitingForEstimatedVBlank(token: Token)
    | WaitingForEstimatedVBlankAndQueued(token: Token)
  {
    function QueueRedraw(): RedrawState {
      match this
      case Idle => Queued
      case WaitingForEstimatedVBlank(token) => WaitingForEstimatedVBlankAndQueued(token)
      case Queued => this
      case WaitingForEstimatedVBlankAndQueued(_) => this
      case WaitingForVBlank(_) => WaitingForVBlank(true)
    }

    /** The redraw loop will pick this output up. */
    predicate IsQueued() {
      Queued? || WaitingForEstimatedVBlankAndQueued?
    }

    /** A redraw is owed: now, or as soon as the awaited VBlank arrives. */
    predicate IsPending() {
      IsQueued() || (WaitingForVBlank? && redrawNeeded)
    }

    /** The state holds the token of a running estimated-VBlank timer. */
    predicate IsEstimated() {
      WaitingForEstimatedVBlank? || WaitingForEstimatedVBlankAndQueued?
    }
  }

  datatype LockRequest = LockRequest(id: nat, client: nat)

  datatype LockState =
    | Unlocked
    | WaitingForSurfaces(confirmation: LockRequest, deadline: Token)
    | Locking(confirmation: LockRequest)
    | Locked(lock: LockRequest)
  {
    /** The request that has been neither confirmed nor dropped yet. */
    function Held(): Option<LockRequest> {
      if WaitingForSurfaces? || Locking? then Some(confirmation) else None
    }

    /** Frames rendered in this state show the lock screen. */
    predicate IsLocked() {
      Locking? || Locked?
    }
  }

  datatype LockRenderState = RenderedUnlocked | RenderedLocked

  /** What the last successful render put on an output. */
  datatype Frame = Nothing | SessionFrame | LockFrame

  datatype LockSurface = LockSurface(id: SurfaceId, client: nat)

  datatype OutputState = OutputState(
    redrawState: RedrawState,
    lockRenderState: LockRenderState,
    lockSurface: Option<LockSurface>)

  datatype Timer = Deadline | EstimatedVBlank(output: OutputId)

  /** How a lock request ended. A confirmation remembers what the outputs showed at that moment. */
  datatype Resolution =
    | Confirmed(id: nat, shown: map<OutputId, Frame>)
    | Dropped(id: nat)

  type Outputs = map<OutputId, OutputState>

  /** Whether the monitors are on, and whether the backend blanks them when they are switched off. */
  datatype Monitors = Monitors(active: bool, blanks: bool)

  datatype Session = Session(
    lockState: LockState,
    outputs: Outputs,
    monitors: Monitors,
    timers: map<Token, Timer>,
    nextToken: Token,
    mapped: set<SurfaceId>,
    nextRequest: nat,
    frames: map<OutputId, Frame>,
    log: seq<Resolution>)

  function Initial(blanks: bool): Session {
    Session(Unlocked, map[], Monitors(true, blanks), map[], 0, {}, 0, map[], [])
  }

  // ----- redraw queue

  function QueueRedrawOn(outputs: Outputs, which: set<OutputId>): Outputs {
    map o | o in outputs ::
      if o in which then outputs[o].(redrawState := outputs[o].redrawState.QueueRedraw()) else outputs[o]
  }

  function QueueRedrawAll(outputs: Outputs): Outputs {
    QueueRedrawOn(outputs, outputs.Keys)
  }

  function QueuedOutputs(outputs: Outputs): set<OutputId> {
    set o | o in outputs && outputs[o].redrawState.IsQueued()
  }

  // ----- locking and unlocking

  function Confirm(s: Session, request: LockRequest): Session {
    s.(lockState := Locked(request), log := s.log + [Confirmed(request.id, s.frames)])
  }

  function Drop(s: Session, request: LockRequest): Session {
    s.(log := s.log + [Dropped(request.id)])
  }

  predicate AllRenderedLocked(outputs: Outputs) {
    forall o | o in outputs :: outputs[o].lockRenderState == RenderedLocked
  }

  predicate SurfaceReady(state: OutputState, mapped: set<SurfaceId>) {
    state.lockSurface.Some? && state.lockSurface.value.id in mapped
  }

  function Lock(s: Session, client: nat, holderAlive: bool): Session {
    var request := LockRequest(s.nextRequest, client);
    var s := s.(nextRequest := s.nextRequest + 1);
    match s.lockState
    case WaitingForSurfaces(_, _) => Drop(s, request)
    case Locking(_) => Drop(s, request)
    case Locked(_) => if holderAlive then Drop(s, request) else Confirm(s, request)
    case Unlocked =>
      if s.outputs == map[] then
        Confirm(s, request)
      else
        s.(lockState := WaitingForSurfaces(request, s.nextToken),
           timers := s.timers[s.nextToken := Deadline],
           nextToken := s.nextToken + 1)
  }

  function ContinueToLocking(s: Session): Session {
    match s.lockState
    case WaitingForSurfaces(request, deadline) =>
      var s := s.(timers := s.timers - {deadline});
      if s.outputs == map[] then
        Confirm(s, request)
      else
        s.(lockState := Locking(request), outputs := QueueRedrawAll(s.outputs))
    case _ => s
  }

  function MaybeContinueToLocking(s: Session): Session {
    if s.lockState.WaitingForSurfaces? && forall o | o in s.outputs :: SurfaceReady(s.outputs[o], s.mapped) then
      ContinueToLocking(s)
    else
      s
  }

  function WithoutLockSurfaces(outputs: Outputs): Outputs {
    map o | o in outputs :: outputs[o].(lockSurface := None)
  }

  function Unlock(s: Session): Session {
    var held := s.lockState.Held();
    s.(lockState := Unlocked,
       timers := if s.lockState.WaitingForSurfaces? then s.timers - {s.lockState.deadline} else s.timers,
       outputs := QueueRedrawAll(WithoutLockSurfaces(s.outputs)),
       log := if held.Some? then s.log + [Dropped(held.value.id)] else s.log)
  }

  function NewLockSurface(s: Session, surface: LockSurface, output: OutputId): Session {
    if s.lockState.Unlocked? then s
    else
      var request := if s.lockState.Locked? then s.lockState.lock else s.lockState.confirmation;
      if request.client != surface.client || output !in s.outputs then s
      else s.(outputs := s.outputs[output := s.outputs[output].(lockSurface := Some(surface))])
  }

  /** `at` is the output whose lock surface was committed, if the surface is one. */
  function CommitSurface(s: Session, surface: SurfaceId, nowMapped: bool, at: Option<OutputId>): Session {
    var s := s.(mapped := if nowMapped then s.mapped + {surface} else s.mapped - {surface});
    if at.None? then s
    else if s.lockState.WaitingForSurfaces? then MaybeContinueToLocking(s)
    else s.(outputs := QueueRedrawOn(s.outputs, {at.value}))
  }

  /** Report success if every output is locked, keep waiting otherwise. */
  function ConfirmIfAllLocked(s: Session): Session
    requires s.lockState.Locking?
  {
    if AllRenderedLocked(s.outputs) then Confirm(s, s.lockState.confirmation) else s
  }

  // ----- rendering

  /** What the backend did with a render call, over all three backends. */
  datatype RenderOutcome =
    | SubmittedToKms
    | SubmittedAtOnce
    | NoDamageUntilTimer
    | NoDamage
    | SkippedUntilTimer
    | SkippedEarly
  {
    predicate IsSkipped() {
      SkippedUntilTimer? || SkippedEarly?
    }

    /** The outcomes of the backends that never start an estimated-VBlank timer. */
    predicate IsTimerless() {
      SubmittedAtOnce? || NoDamage?
    }
  }

  /** Sets the redraw state of an output, starting or stopping its estimated-VBlank timer. */
  function BackendRender(s: Session, o: OutputId, outcome: RenderOutcome): Session
    requires o in s.outputs
  {
    var before := s.outputs[o].redrawState;
    var frame := if s.lockState.IsLocked() then LockFrame else SessionFrame;
    var s := if outcome.IsSkipped() then s else s.(frames := s.frames[o := frame]);
    match outcome
    case SubmittedToKms =>
      WithRedrawState(s, o, WaitingForVBlank(false)).(timers := if before.IsEstimated() then s.timers - {before.token} else s.timers)
    case SubmittedAtOnce => WithRedrawState(s, o, Idle)
    case NoDamage => WithRedrawState(s, o, Idle)
    case SkippedEarly => s
    case _ =>
      if before.IsEstimated() then
        WithRedrawState(s, o, WaitingForEstimatedVBlank(before.token))
      else
        WithRedrawState(s, o, WaitingForEstimatedVBlank(s.nextToken))
        .(timers := s.timers[s.nextToken := EstimatedVBlank(o)], nextToken := s.nextToken + 1)
  }

  function WithRedrawState(s: Session, o: OutputId, redrawState: RedrawState): Session
    requires o in s.outputs
  {
    s.(outputs := s.outputs[o := s.outputs[o].(redrawState := redrawState)])
  }

  /** The redraw state after a render that was skipped. */
  function AfterSkipped(redrawState: RedrawState): RedrawState {
    if redrawState.IsEstimated() then WaitingForEstimatedVBlank(redrawState.token) else Idle
  }

  /** The output's own state after a redraw, before the lock state is looked at. */
  function RedrawOutput(s: Session, o: OutputId, outcome: RenderOutcome): Session
    requires o in s.outputs
    ensures o in RedrawOutput(s, o, outcome).outputs
  {
    var rendered := if s.monitors.active then BackendRender(s, o, outcome) else s;
    var skipped := !s.monitors.active || outcome.IsSkipped();
    var state := rendered.outputs[o];
    var state := if skipped then state.(redrawState := AfterSkipped(state.redrawState)) else state;
    var state :=
      if !skipped || !s.monitors.active then
        state.(lockRenderState := if s.lockState.IsLocked() then RenderedLocked else RenderedUnlocked)
      else
        state;
    rendered.(outputs := rendered.outputs[o := state])
  }

  /** Look at the lock state after `o` was redrawn: a failed lock frame gives up on locking. */
  function SettleAfterRedraw(s: Session, o: OutputId): Session
    requires o in s.outputs
  {
    if !s.lockState.Locking? then s
    else if s.outputs[o].lockRenderState == RenderedUnlocked then Unlock(s)
    else ConfirmIfAllLocked(s)
  }

  function Redraw(s: Session, o: OutputId, outcome: RenderOutcome): Session
    requires o in s.outputs
  {
    SettleAfterRedraw(RedrawOutput(s, o, outcome), o)
  }

  /** A VBlank event; one that was not awaited always leads to a redraw. */
  function VBlank(s: Session, o: OutputId, animating: bool): Session
    requires o in s.outputs
  {
    var redrawState := s.outputs[o].redrawState;
    var needed := redrawState.WaitingForVBlank? ==> redrawState.redrawNeeded;
    WithRedrawState(s, o, if needed || animating then Queued else Idle)
  }

  function EstimatedVBlankExpired(s: Session, token: Token, animating: bool): Session
    requires token in s.timers && s.timers[token].EstimatedVBlank?
  {
    var o := s.timers[token].output;
    var s := s.(timers := s.timers - {token});
    if o !in s.outputs then s
    else WithRedrawState(s, o, if s.outputs[o].redrawState.IsQueued() || animating then Queued else Idle)
  }

  // ----- hotplug and power

  /** `moved` are the outputs whose position changed because of the new one. */
  function AddOutput(s: Session, o: OutputId, moved: set<OutputId>): Session
    requires o !in s.outputs
  {
    var rendered := if s.lockState.IsLocked() then RenderedLocked else RenderedUnlocked;
    s.(outputs := QueueRedrawOn(s.outputs[o := OutputState(Idle, rendered, None)], moved + {o}),
       frames := s.frames[o := Nothing])
  }

  function ForgetOutput(s: Session, o: OutputId, moved: set<OutputId>): Session
    requires o in s.outputs
  {
    var before := s.outputs[o].redrawState;
    s.(outputs := QueueRedrawOn(s.outputs, moved) - {o},
       frames := s.frames - {o},
       timers := if before.IsEstimated() then s.timers - {before.token} else s.timers)
  }

  /** An output is gone: the requirements for locking may now be met. */
  function SettleAfterRemoval(s: Session): Session {
    if s.lockState.Locking? then ConfirmIfAllLocked(s) else MaybeContinueToLocking(s)
  }

  function RemoveOutput(s: Session, o: OutputId, moved: set<OutputId>, overlayClosed: bool): Session
    requires o in s.outputs
  {
    var s := SettleAfterRemoval(ForgetOutput(s, o, moved));
    if overlayClosed then s.(outputs := QueueRedrawAll(s.outputs)) else s
  }

  function DeactivateMonitors(s: Session): Session {
    if !s.monitors.active then s
    else s.(monitors := s.monitors.(active := false), frames := if s.monitors.blanks then map o | o in s.frames :: Nothing else s.frames)
  }

  function ActivateMonitors(s: Session): Session {
    if s.monitors.active then s
    else s.(monitors := s.monitors.(active := true), outputs := QueueRedrawAll(s.outputs))
  }

  // ----- runs

  datatype Event =
    | LockRequested(client: nat, holderAlive: bool)
    | UnlockRequested
    | LockSurfaceCreated(surface: LockSurface, onOutput: OutputId)
    | SurfaceCommitted(committed: SurfaceId, nowMapped: bool, at: Option<OutputId>)
    | DeadlineExpired(token: Token)
    | OutputAdded(output: OutputId, moved: set<OutputId>)
    | OutputRemoved(output: OutputId, moved: set<OutputId>, overlayClosed: bool)
    | MonitorsDeactivated
    | MonitorsActivated
    | RedrawRequested(output: OutputId)
    | Redrawn(output: OutputId, outcome: RenderOutcome)
    | VBlankArrived(output: OutputId, animating: bool)
    | EstimatedTimerExpired(token: Token, animating: bool)

  /** The events that can happen in a state: the callers' obligations and the backend's contract. */
  predicate Enabled(s: Session, e: Event) {
    match e
    case SurfaceCommitted(surface, _, Some(o)) =>
      o in s.outputs && s.outputs[o].lockSurface.Some? && s.outputs[o].lockSurface.value.id == surface
    case DeadlineExpired(token) => token in s.timers && s.timers[token].Deadline?
    case OutputAdded(o, _) => o !in s.outputs
    case OutputRemoved(o, _, _) => o in s.outputs
    case RedrawRequested(o) => o in s.outputs
    case Redrawn(o, outcome) =>
      && o in s.outputs
      && s.outputs[o].redrawState.IsQueued()
      && (outcome.IsTimerless() ==> s.outputs[o].redrawState.Queued?)
    case VBlankArrived(o, _) => o in s.outputs
    case EstimatedTimerExpired(token, _) =>
      && token in s.timers
      && s.timers[token].EstimatedVBlank?
      && HandlerAccepts(s, s.timers[token].output)
    case _ => true
  }

  /** The estimated-VBlank handler treats every other redraw state as unreachable. */
  predicate HandlerAccepts(s: Session, o: OutputId) {
    o in s.outputs ==> s.outputs[o].redrawState.IsEstimated()
  }

  function Step(s: Session, e: Event): Session
    requires Enabled(s, e)
  {
    match e
    case LockRequested(client, holderAlive) => Lock(s, client, holderAlive)
    case UnlockRequested => ActivateMonitors(Unlock(s))
    case LockSurfaceCreated(surface, o) => NewLockSurface(s, surface, o)
    case SurfaceCommitted(surface, nowMapped, at) => CommitSurface(s, surface, nowMapped, at)
    case DeadlineExpired(token) =>
      var s := ContinueToLocking(s);
      s.(timers := s.timers - {token})
    case OutputAdded(o, moved) => AddOutput(s, o, moved)
    case OutputRemoved(o, moved, overlayClosed) => RemoveOutput(s, o, moved, overlayClosed)
    case MonitorsDeactivated => DeactivateMonitors(s)
    case MonitorsActivated => ActivateMonitors(s)
    case RedrawRequested(o) => s.(outputs := QueueRedrawOn(s.outputs, {o}))
    case Redrawn(o, outcome) => Redraw(s, o, outcome)
    case VBlankArrived(o, animating) => VBlank(s, o, animating)
    case EstimatedTimerExpired(token, animating) => EstimatedVBlankExpired(s, token, animating)
  }

  predicate ValidRun(s: Session, events: seq<Event>)
    decreases |events|
  {
    events == [] || (Enabled(s, events[0]) && ValidRun(Step(s, events[0]), events[1..]))
  }

  function Run(s: Session, events: seq<Event>): Session
    requires ValidRun(s, events)
    decreases |events|
  {
    if events == [] then s else Run(Step(s, events[0]), events[1..])
  }
}

# A verified model of niri

niri is a scrollable-tiling Wayland compositor. This Dafny project models the parts of it whose
correctness depends on state kept over time or on algorithms that cannot be checked by reading one
function, and proves what they promise.

- **Session lock and redraw loop** (`SessionLock.dfy`, `SessionLockInvariants.dfy`,
  `SessionLockHistory.dfy`, `OutputHistory.dfy`, `SessionLockRuns.dfy`,
  `EstimatedVBlankTimers.dfy`, `Niri.dfy`). The compositor side of the Wayland
  protocol `ext-session-lock-v1`: lock states, what each output last rendered, redraw states,
  deadline and estimated-VBlank timers, hotplug, monitor power and failing renders. `SessionLock`
  describes every operation as a function on the whole state and a run as a sequence of events;
  `Niri` is the object with methods that update it in place, each proved equal to its function.
  `SessionLockHistory` and `OutputHistory` describe the same state a second time, as what the last
  event about each part of it said.
- **Outputs** (`OutputNames.dfy`, `OutputSections.dfy`, `OutputPlacement.dfy`,
  `OutputCycling.dfy`, `TransientOutputs.dfy`). Matching and ordering of output names, placement in the global space,
  going from one output to the next, and configuration changed while running.
- **Event stream** (`EventStream.dfy`, `EventStreamHistory.dfy`, `EventStreamClient.dfy`). The
  replicated state that IPC clients build from events, by events and by history.
- **Configuration** (`ConfigBinds.dfy`, `ConfigSections.dfy`, `ConfigIncludes.dfy`,
  `IncludeRoutes.dfy`, `RuleMerging.dfy`). Includes, section merging, bind overriding and the algebra of rules.
- **Timing** (`FrameClock.dfy`, `CubicBezier.dfy`). Prediction of the next presentation and the
  cubic Bézier easing.

To verify the project: `dafny verify dfyconfig.toml`, with Dafny 4.11.

## Main results

1. *Lock safety.* If the backend blanks the outputs when the monitors are switched off, then in every
   reachable locked state, and whenever a client was told `locked`, no output shows a frame of the
   session, through hotplug, monitor power and failed renders. If it does not, there is a run that
   confirms a lock over a session frame. For any backend, a run is safe in all its states exactly
   when it never redraws, while locking with the monitors off, an output that was left showing the
   session.
2. *Lock progress.* A session that is locking always owes a redraw; as soon as the owed redraws
   happened, in any order and among any other events, the request has been confirmed or dropped.
   The redraw loop itself terminates although a failed render queues every output again.
3. *One answer.* No lock request is confirmed or dropped twice, and each one that is not held was
   answered. The deadline timer runs exactly while surfaces are awaited, so waiting can always be
   ended; once it has ended and the redraws owed then were served, the request was answered.
4. *Estimated-VBlank timers.* Throughout a run the unreachable branches of the timer's handler are
   out of reach exactly when no VBlank arrives for an output that has such a timer.
5. *History.* After any run, the lock state, its answers, and for every output the owed redraw, the
   awaited VBlank or timer, the lock flag, the frame and the lock surface are what the last event
   about them said. A lock is kept exactly until it is given up or its dead holder is replaced; a
   redraw is owed exactly if one was asked for since the output was last redrawn.
6. *Placement* is a function of the set of outputs and the configuration, running it again moves
   nothing, and a configured position is honoured if and only if it is free. No configuration makes
   outputs overlap exactly when every logical size but the first one's by name rounds up.
7. *Event stream.* A client that starts from a replication, in any iteration order, ends up in the
   same state as one that saw everything. Every property of every window, workspace and cast is what
   was last said of it, and a stream is accepted exactly if each event is about something known.
8. *Includes.* Loading terminates for any file system. It succeeds exactly if every file on every
   route of includes is fine by itself, reads exactly the paths that such routes include, and then
   equals a fold of section merges over exactly their sections.
9. *Binds.* The loaded binds are all sections put together, with only the last bind of each key.
10. *Rules.* Merging rules first is the same as applying them one by one: always for borders, and
    for shadows exactly if the last rule that switches the shadow is not both `on` and `off`.
11. *Easing.* The easing is within 3/2^32 of the curve that De Casteljau's construction gives, and
    monotone.

## Choices

- The render call of the backends is a nondeterministic outcome. `SubmittedToKms`,
  `NoDamageUntilTimer`, `SkippedUntilTimer` and `SkippedEarly` are those of the TTY backend
  (`src/backend/tty.rs:1843-2004`, `src/backend/tty.rs:2932-2977`); `SubmittedAtOnce` and `NoDamage`
  those of the headless and winit backends (`src/backend/headless.rs:139-148`,
  `src/backend/winit.rs:276-301`). What was rendered last stands for what an output shows: the code
  confirms a lock when a frame was rendered, not when it was presented.
- Whether switching the monitors off blanks them is a parameter of the session. The TTY backend does
  (`src/backend/tty.rs:2237-2254`); the other two do nothing (`src/backend/mod.rs:172-178`).
- A `SessionLocker` that goes out of scope refuses its request; Smithay, which does this, is not part
  of this model. It is recorded as `Dropped` in the log.
- Whether animations are ongoing, which outputs were moved by repositioning, whether an overlay was
  closed, and whether the holder of a lock is alive are parameters of the events that read them.
- The clock is a parameter. Lengths of time are whole nanoseconds.
- The two library sorts of the placement stand as an insertion sort by name and a partition;
  `OutputPlacement.SortedIsUnique` shows that any sorting algorithm gives the same.
- Where documentation and code differ, the model follows the code. A rule with both `on` and `off`
  wins as `on` in a merged rule, but switches a shadow off when it is applied directly. The
  interval that is skipped when a frame is timed exactly at the last presentation is kept.

## Model

| member | source | states |
|---|---|---|
| SessionLockRuns.SafeThroughoutIff | src/niri.rs:4929-4938 | With any backend, a run from a safe state is safe in all its states if and only if no redraw in it counts an output as locked, because the monitors are off, that was left showing the session. |
| SessionLockRuns.HidesSessionIff | src/backend/mod.rs:172-178 | Every run from startup hides the session in its locked states if and only if the backend blanks the outputs when the monitors are switched off. |
| SessionLockRuns.ConfirmationsAreSafeIff | src/backend/mod.rs:172-178 | No run from startup sends `locked` while an output shows a session frame if and only if the backend blanks. |
| SessionLockRuns.LockedSessionIsHidden | src/niri.rs:4929-4965 | After any run without such a redraw, in a locked session every output's last frame is a lock frame or nothing and every output counts as locked, including outputs plugged in since; and no `locked` was sent over a session frame. |
| SessionLockRuns.BlankingIsNeverBlind | src/backend/tty.rs:2237-2254 | With a backend that blanks, no run has such a redraw. |
| SessionLockRuns.SwitchingOffUnblanked | src/niri.rs:4929-4938 | Without blanking, from any unlocked state with one idle output that shows the session: monitors off, a lock request, its deadline and a redraw confirm the lock over the session frame. |
| SessionLockRuns.BlindLock | src/niri.rs:4929-4965 | Such a run from startup. |
| SessionLockRuns.DeadlineFindsItsRequest | src/niri.rs:6315-6334 | A lock deadline can fire if and only if surfaces are awaited and it is the stored token, so the branch for a wrong lock state is not reached by the timer. |
| SessionLockRuns.RequestsAreAnsweredOnce | src/niri.rs:6274-6402 | Every request made so far is the one being worked on or was resolved, never both, and none was resolved twice. |
| SessionLockRuns.LockingIsAnswered | src/niri.rs:4940-4965 | From any locking state that satisfies the invariant: once every output that owes a redraw was redrawn or removed, with any other events in between, the request has been confirmed or dropped. |
| SessionLockRuns.EveryRequestIsAnswered | src/niri.rs:6274-6402 | From any state that satisfies the invariant and for any request made so far: after any events, once it does not await surfaces and the redraws owed at that point were served, it has been confirmed or dropped. |
| SessionLockRuns.WaitingEnds | src/niri.rs:6315-6327 | While surfaces are awaited the deadline can fire, and it leads to locking for the same request or to its answer. |
| SessionLockRuns.ServingResolves | src/niri.rs:4940-4965 | The same for any locking state in which the outputs still rendered unlocked are served; the induction behind progress. |
| SessionLockRuns.StepWhileLocking | src/niri.rs:6372-6381 | One step of any kind while locking answers the request, or keeps it with no newly unlocked output and with the served output no longer unlocked. |
| SessionLockRuns.RedrawWhileLocking | src/niri.rs:4917-4965 | A redraw while locking either keeps the request, with that output locked and another one not yet, or resolves it. |
| SessionLockRuns.RemovalWhileLocking | src/niri.rs:3016-3037 | The same when an output is unplugged while locking. |
| SessionLockRuns.LogOnlyGrows | src/niri.rs:6274-6402 | No run ever takes back an answer. |
| SessionLockRuns.RunKeepsInvariant | src/niri.rs:4868-4996 | What is tracked of the outputs, progress, timers and requests: these invariants hold together after any run. |
| SessionLockHistory.LockStateIsLastWord | src/niri.rs:6274-6402 | After any run the lock state is what the last event about it said: a request is granted at once without outputs or to replace a dead holder, waits otherwise, locks when surfaces are ready or the deadline passes, is locked when the last output is, and ends by unlocking or a failed lock frame. |
| SessionLockHistory.LockStep | src/niri.rs:6274-6402 | The same for one event. |
| SessionLockHistory.LogIsAllAnswers | src/niri.rs:6274-6402 | The answers of a run are, in order, those to its events: a request that changes nothing is refused, one that takes effect is confirmed with the frames shown at that point, and an unlock drops the pending one. |
| SessionLockHistory.HolderChangesIff | src/niri.rs:6285-6301 | A locked session changes hands if and only if it is unlocked, or a new request finds its holder dead; a living holder's rival is refused. |
| SessionLockHistory.LockIsKeptIff | src/niri.rs:6285-6301 | Over a whole run, a lock is kept if and only if nothing in the run unlocks it or replaces a dead holder. |
| SessionLockHistory.RequestIsNotResumed | src/niri.rs:6274-6402 | A request that the lock state is no longer about never comes back. |
| SessionLockHistory.RequestsAreCounted | src/niri.rs:6274-6274 | Requests are told apart by the order in which they were made. |
| OutputHistory.OutputIsItsHistory | src/niri.rs:642-661 | After any run, whether an output is known, owes a redraw, awaits a VBlank or a timer, counts as locked, what it shows and its lock surface are what the last event about each said. |
| OutputHistory.OwesIffAsked | src/niri.rs:3832-3858 | From startup, a redraw is owed if and only if some event asked for one since the output was last redrawn; a redraw pays, also when it fails. |
| OutputHistory.RedrawFollows | src/niri.rs:4868-4965 | What a redraw with any outcome does to the output itself and to every other one. |
| OutputHistory.RemovalFollows | src/niri.rs:2976-3052 | What unplugging an output does to every other one. |
| OutputHistory.VBlankFollows | src/backend/tty.rs:1714-1826 | A VBlank or an expired timer ends the wait and asks for a redraw exactly if animations go on, one is owed, or the VBlank was not awaited. |
| OutputHistory.RedrawStateIs | src/niri.rs:498-511 | A redraw state is exactly what is owed, what is awaited and the token of the timer. |
| OutputHistory.MappedAndMonitorsAreLastWords | src/niri.rs:3104-3122 | A surface is mapped as its last commit left it, and the monitors are as they were last switched. |
| SessionLockInvariants.StepStaysSafeIff | src/niri.rs:2930-2935 | An event, hotplug and monitor power included, makes an output count as locked while it shows the session, or confirms over a session frame, if and only if it is a redraw of an output left showing the session, while locking with the monitors off. |
| SessionLockInvariants.StepKeepsTracked | src/niri.rs:3016-3037 | Every event keeps a frame for exactly the tracked outputs, nothing on blanked ones, and a locked session without outputs that do not count as locked. |
| SessionLockInvariants.StepKeepsDriven | src/niri.rs:6372-6381 | While locking, some redraw is pending, and one is pending for each output still rendered unlocked; every event keeps this. |
| SessionLockInvariants.StepKeepsTimers | src/niri.rs:6319-6332 | Exactly one deadline timer while surfaces are awaited and none otherwise, never sharing a token with a redraw state. |
| SessionLockInvariants.StepKeepsRequests | src/niri.rs:6390-6402 | Every event keeps each request either held or resolved exactly once. |
| SessionLockInvariants.RedrawKeepsDriven | src/niri.rs:4917-4945 | A redraw with any outcome keeps locking driven; a failed one ends it. |
| SessionLockInvariants.RedrawShowsFrame | src/niri.rs:4914-4938 | A redraw changes only its own output's frame: to the lock or the session frame on success, not at all on failure; the lock flag follows unless a render failed on an active monitor. |
| SessionLockInvariants.RedrawTouchesOnlyOne | src/niri.rs:4914-4938 | A redraw changes one output, leaves it not queued, and leaves it unlocked while locking only after a skipped render on an active monitor. |
| SessionLockInvariants.RemoveOutputKeepsSafe | src/niri.rs:2976-3052 | Unplugging an output, which may confirm or start locking, keeps the session safe. |
| SessionLockInvariants.RemoveOutputKeepsDriven | src/niri.rs:3016-3037 | Unplugging the last output not yet locked confirms at once instead of leaving the session stuck. |
| EstimatedVBlankTimers.StaysExactIffNotRogue | src/backend/tty.rs:1714-1730 | An event keeps timers and redraw states in one-to-one correspondence if and only if it is not a VBlank for an output that has its estimated timer running. |
| EstimatedVBlankTimers.HandlerIsSafeIff | src/backend/tty.rs:1795-1826 | From any state in which timers and redraw states correspond: the handler would accept every running timer, in every state of a run, if and only if no VBlank in the run arrives for an output with such a timer. |
| EstimatedVBlankTimers.TimerHandlerNeverPanicsIff | src/backend/tty.rs:1809-1819 | The same for every run from startup. |
| EstimatedVBlankTimers.OneVBlankBreaksTheHandler | src/backend/tty.rs:1714-1730 | Whenever an output waits for its timer, one VBlank for it is enough to leave a timer that the handler would not accept. |
| EstimatedVBlankTimers.RogueVBlankBreaksTheHandler | src/backend/tty.rs:1809-1819 | Such a run from startup. |
| EstimatedVBlankTimers.RedrawStaysExact | src/backend/tty.rs:2932-2977 | Starting, reusing and cancelling timers during a redraw keeps the correspondence. |
| NiriCompositor.Niri.RedrawQueuedOutputs | src/niri.rs:3845-3858 | The loop ends with no output queued, after at most as many redraws as the work measure says, as a run of redraw events; it keeps the invariant, and if the session is still locking afterwards some output waits for a VBlank with a redraw owed. |
| NiriCompositor.RedrawReducesWork | src/niri.rs:4940-4945 | Any redraw of a queued output lowers the measure, also one that fails while locking and queues every output again. |
| NiriCompositor.Niri.Redraw | src/niri.rs:4868-4965 | The state after a redraw, with whatever outcome the backend has, is that of the specification. |
| NiriCompositor.Niri.BackendRender | src/backend/tty.rs:1960-2000 | Redraw state, timers and frame after each outcome of a render. |
| NiriCompositor.Niri.Lock | src/niri.rs:6274-6334 | Refuses while another client locks or holds the lock, takes over from a dead holder, confirms at once without outputs, waits for surfaces otherwise. |
| NiriCompositor.Niri.MaybeContinueToLocking | src/niri.rs:6336-6357 | Continues exactly when every output has a mapped lock surface. |
| NiriCompositor.Niri.ContinueToLocking | src/niri.rs:6359-6388 | Cancels the deadline and confirms or queues every output; no effect in other states. |
| NiriCompositor.Niri.Unlock | src/niri.rs:6390-6402 | Drops the pending request and its deadline, forgets lock surfaces, queues every output. |
| NiriCompositor.Niri.NewLockSurface | src/niri.rs:6483-6505 | Stores the surface only for the client that locks and for a known output. |
| NiriCompositor.Niri.OnLockDeadline | src/niri.rs:6320-6327 | The timer callback is the deadline event of the specification. |
| NiriCompositor.Niri.OnUnlock | src/handlers/mod.rs:468-472 | Unlocking on request also wakes the monitors. |
| NiriCompositor.Niri.OnCommit | src/handlers/compositor.rs:473-486 | The scan over the outputs finds an output with this lock surface if there is one, and continues locking or redraws it. |
| NiriCompositor.Niri.OnVBlank | src/backend/tty.rs:1714-1793 | The redraw state after a VBlank, awaited or not. |
| NiriCompositor.Niri.OnEstimatedVBlankTimer | src/backend/tty.rs:1795-1826 | The redraw state after the timer, for an output that may be gone. |
| NiriCompositor.Niri.AddOutput | src/niri.rs:2882-2960 | The lock flag, redraw state and queueing of a new output. |
| NiriCompositor.Niri.RemoveOutput | src/niri.rs:2976-3052 | Forgetting an output with its timer, then confirming, waiting or continuing. |
| NiriCompositor.Niri.QueueRedrawAll | src/niri.rs:3833-3837 | Every output moves to the state that owes a redraw, in any iteration order. |
| NiriCompositor.Niri.ActivateMonitors | src/niri.rs:3113-3122 | Waking the monitors queues every output, once. |
| NiriCompositor.Niri.DeactivateMonitors | src/niri.rs:3104-3111 | Switching the monitors off queues nothing and blanks them if the backend does. |
| OutputNames.MatchesIff | niri-config/src/output.rs:190-237 | The field-by-field matching with its slicing accepts exactly the connector and the printed description, ignoring ASCII case. |
| OutputNames.StripFieldIff | niri-config/src/output.rs:208-218 | Stripping one field succeeds exactly on that field, a space and a tail, and only where the slice ends between two characters. |
| OutputNames.MatchesItsOwnNames | niri-config/src/output.rs:173-188 | A name matches its connector and what is printed for it, as the documentation of the printing functions says. |
| OutputNames.EqIgnoreAsciiCaseIff | niri-config/src/output.rs:192-194 | Comparison ignores the difference between A to Z and a to z and nothing else. |
| OutputNames.DescriptionExamples | niri-config/src/output.rs:183-188 | Two descriptions written out: make, model and serial in this order, with `Unknown` for what is missing. |
| OutputNames.CompareIff | niri-config/src/output.rs:241-257 | Outputs with a description come first, by make, then model, then serial, then connector; the others by connector. |
| OutputNames.CompareStrIff | niri-config/src/output.rs:247-255 | Strings are ordered by their first different byte, a prefix first. |
| OutputNames.MissingPartIsFirst | niri-config/src/output.rs:250-254 | A missing part comes before any other. |
| OutputNames.CompareIsTotal | niri-config/src/output.rs:241-257 | The order is antisymmetric, and equal only on equal names. |
| OutputNames.CompareIsTransitive | niri-config/src/output.rs:241-257 | The order is transitive. |
| OutputPlacement.LayoutIgnoresEnumeration | src/niri.rs:2790-2799 | With unique connectors, placement order and positions do not depend on the order of enumeration. |
| OutputPlacement.SortByNameSorts | src/niri.rs:2796-2796 | Sorting by name gives a sorted permutation. |
| OutputPlacement.SortedIsUnique | src/niri.rs:2796-2796 | There is only one sorted permutation, so the unstable sort is deterministic. |
| OutputPlacement.ConfiguredComeFirst | src/niri.rs:2798-2799 | Outputs with a configured position are placed before all others. |
| OutputPlacement.PlaceStepByStep | src/niri.rs:2811-2866 | Each output goes where it is put against exactly the outputs placed before it. |
| OutputPlacement.ConfiguredPositionIff | src/niri.rs:2821-2864 | An output gets its configured position if and only if its rectangle is disjoint from all placed before it; otherwise it goes to the right of everything. |
| OutputPlacement.ConfiguredPositionIs | src/niri.rs:2776-2778 | The first section that matches an output decides about its position, also by leaving it open. |
| OutputPlacement.UnmatchedIsUnconfigured | src/niri.rs:2776-2778 | Without a matching section there is no configured position. |
| OutputPlacement.OverlapsIff | src/niri.rs:2827-2831 | Rectangles with an area overlap if and only if they share a pixel. |
| OutputPlacement.SizesAre | src/niri.rs:2819-2825 | The guard takes the nearest whole size, a mapped output the next one that is large enough. |
| OutputPlacement.RightEdgeIsMax | src/niri.rs:2854-2864 | The automatic position is the greatest right edge so far, attained by some output, and 0 for the first output. |
| OutputPlacement.GuardedRectsAreDisjoint | src/niri.rs:2819-2831 | Whatever the sizes, no output as the guard measured it overlaps an earlier one. |
| OutputPlacement.NoConfigOverlapsIff | src/niri.rs:2819-2866 | For outputs that can be told apart and have an area: no configuration at all makes any two overlap if and only if each size, except perhaps that of the first output by name, rounds up. |
| OutputPlacement.NoOverlapIfRoundedUp | src/niri.rs:2819-2866 | If all but the first by name round up, as whole sizes do, no configuration makes two outputs overlap. |
| OutputPlacement.NoOverlapIff | src/niri.rs:2819-2866 | For one configuration: no two outputs overlap if and only if the guard's verdict on each configured position is the same with the size rounded up. |
| OutputPlacement.FractionalSizesCanOverlap | src/niri.rs:2819-2831 | Two outputs and a configuration for which they do overlap. |
| OutputPlacement.LayoutIsStable | src/niri.rs:2759-2880 | Placing what was already placed gives the same layout. |
| OutputPlacement.RepositioningAgainMovesNothing | src/niri.rs:2868-2878 | Repositioning a second time announces no output. |
| OutputPlacement.MovedIff | src/niri.rs:2868-2878 | An output is announced if and only if it is placed where it was not before. |
| OutputPlacement.NewOutputIsAnnounced | src/niri.rs:2868-2878 | A new output is always announced. |
| OutputPlacement.GlobalSpace.RepositionOutputs | src/niri.rs:2759-2880 | The unmap, sort and map loop leaves exactly the specified layout and order, and announces and redraws exactly the outputs whose position changed. |
| OutputCycling.NextVisitsEachOnce | src/niri.rs:3630-3638 | With two or more outputs, going to the next one visits each exactly once before returning. |
| OutputCycling.PreviousUndoesNext | src/niri.rs:3619-3638 | Previous undoes next and next undoes previous. |
| OutputCycling.NextIsCyclicSuccessor | src/niri.rs:3630-3638 | The next output is the following one in the sorted order, with wrap-around. |
| OutputCycling.PreviousIsCyclicPredecessor | src/niri.rs:3619-3628 | The previous output is the preceding one, with wrap-around. |
| OutputCycling.EdgesOfCycling | src/niri.rs:3619-3638 | A lone output has no neighbours; an unknown one leads to the ends of the list. |
| TransientOutputs.EffectiveOutputs | src/niri.rs:1550-1559 | After any run of changes, reloads and failed reloads: the outputs in the file as last changed, with exactly the changes since then in order. |
| TransientOutputs.ChangeTakesEffect | src/niri.rs:1848-1889 | After a change, lookup finds the section it had, or a new one, with the action applied, and no other section differs. |
| TransientOutputs.ChangeLeavesOthersAlone | src/niri.rs:1876-1888 | An output that the changed section is not written for is configured as before. |
| TransientOutputs.ResolvedNameMatches | src/niri.rs:1852-1874 | The output a user's string stands for is matched by that string, so that a new section takes effect. |
| TransientOutputs.ResolvesInOrder | src/niri.rs:1855-1874 | The first connected output that matches, else the first disconnected one, else a connector of that name. |
| TransientOutputs.SectionIsLastWords | src/niri.rs:1891-1962 | After any actions each property of a section is as it was last set; a mode drops a modeline, a modeline keeps the mode, and the name and the focus at startup never change. |
| TransientOutputs.FreshSectionIsUnset | src/niri.rs:1880-1885 | A new section has the name the user wrote, and nothing set but by the actions. |
| TransientOutputs.ReplacedOutputs | src/handlers/mod.rs:853-856 | Replacing all outputs forgets everything before, and later changes add up on it. |
| TransientOutputs.ChangesAddUp | src/niri.rs:1550-1559 | While the file does not change, exactly the changes are added to what there was. |
| TransientOutputs.OutputConfig.ModifyOutputConfig | src/niri.rs:1848-1965 | Find or append, then modify in place. |
| TransientOutputs.OutputConfig.ReloadConfig | src/niri.rs:1641-1645 | Taking out the effective outputs and putting them back keeps them exactly when the file's outputs did not change. |
| TransientOutputs.OutputConfig.ApplyOutputConfig | src/handlers/mod.rs:853-856 | Replacing all outputs leaves the remembered file outputs alone. |
| TransientOutputs.OutputConfig.FindIndex | niri-config/src/output.rs:148-150 | The first section written for a name. |
| OutputSections.FindIsIndexed | niri-config/src/output.rs:143-151 | Looking a section up to read it and to modify it finds the same one. |
| EventStream.LateJoiner | niri-ipc/src/state.rs:96-117 | After any accepted history, a replication in any iteration order followed by later events is accepted if and only if the history followed by them is, and ends in the same state. |
| EventStream.ReplicationRestores | niri-ipc/src/state.rs:97-106 | Replaying a replication from the default state gives the replicated state. |
| EventStream.IndexOfEnumeration | niri-ipc/src/state.rs:121-128 | Listing a map in any order and collecting it again by id gives the map. |
| EventStream.ApplyKeepsKeyed | niri-ipc/src/state.rs:125-238 | Every event keeps each entry under its own id. |
| EventStream.ClientsStayConsistent | niri-ipc/src/state.rs:125-238 | Given snapshots that have them, a client always has at most one focused window, at most one focused workspace, and one active workspace per output. |
| EventStream.ApplyWorkspacesKeepsConsistent | niri-ipc/src/state.rs:137-152 | Every workspace event keeps at most one focused workspace and exactly one active one on each output that has workspaces. |
| EventStream.ApplyWindowsKeepsConsistent | niri-ipc/src/state.rs:178-207 | Every window event keeps at most one focused window, also opening a focused one. |
| EventStreamHistory.OpenWindowsAreLastWords | niri-ipc/src/state.rs:173-202 | A window is in the state if and only if it was listed or opened, and not left out of a list or closed since. |
| EventStreamHistory.WindowIsLastWords | niri-ipc/src/state.rs:173-237 | Its focus, urgency, focus time, layout and everything else are what was last said of them; opening a focused window takes the focus from all others. |
| EventStreamHistory.WorkspaceIsLastWords | niri-ipc/src/state.rs:125-164 | Which workspaces there are, and their urgency, focus, active window and everything else, are what was last said of them. |
| EventStreamHistory.ActiveIsLastActive | niri-ipc/src/state.rs:137-151 | A workspace is active if and only if it was last activated on its output, or listed so since; activations on other outputs do not matter. |
| EventStreamHistory.OthersAreLastWords | niri-ipc/src/state.rs:265-323 | Casts, the overview flag and the config flag are what was last said of them. |
| EventStreamHistory.KeyboardIsLastWords | niri-ipc/src/state.rs:249-262 | The layouts and the current one are what was last said of them. |
| EventStreamHistory.KeyboardIsSetIff | niri-ipc/src/state.rs:241-262 | Layouts are known if and only if they were ever announced. |
| EventStreamHistory.AcceptedIff | niri-ipc/src/state.rs:138-139 | A client accepts a stream, that is, no lookup fails, if and only if each event is about something that was introduced before it and not removed since. |
| EventStreamHistory.IndexIsListed | niri-ipc/src/state.rs:127-129 | Of entries with the same id in a list the last one is taken. |
| EventStreamClient.EventStreamState.Apply | niri-ipc/src/state.rs:108-116 | Offering an event to the parts in turn changes the whole state as specified, and returns only events that no part wants. |
| EventStreamClient.EventStreamState.Replicate | niri-ipc/src/state.rs:97-106 | The returned events are a replication of the current state. |
| EventStreamClient.Values | niri-ipc/src/state.rs:121-121 | Iterating over a map lists each value once, in some order. |
| EventStreamClient.WorkspacesState.Apply | niri-ipc/src/state.rs:125-164 | The scans over all workspaces equal keyed updates. |
| EventStreamClient.WorkspacesState.Activate | niri-ipc/src/state.rs:137-152 | The loop activates and focuses exactly the target, in any order. |
| EventStreamClient.WindowsState.Apply | niri-ipc/src/state.rs:173-237 | The scans over all windows, with and without early exit, equal keyed updates. |
| EventStreamClient.WindowsState.Find | niri-ipc/src/state.rs:212-217 | Scanning for an id and stopping at the first hit finds the entry with that key. |
| EventStreamClient.KeyboardLayoutsState.Apply | niri-ipc/src/state.rs:249-262 | Setting the layouts and switching between them. |
| EventStreamClient.CastsState.Apply | niri-ipc/src/state.rs:307-322 | Replacing, adding and removing casts by stream. |
| ConfigIncludes.Parse | niri-config/src/lib.rs:495-532 | Loading terminates for any file system, cyclic ones included. It succeeds if and only if no file has an error; the config is then the fold of the merges over the flattened files; the list to watch has every included file that was looked up, also after an error. |
| ConfigIncludes.ConfigLoader.DecodeChildren | niri-config/src/lib.rs:137-460 | One file, merged into the shared config as it is read: same success, config and list as the specification; what was read is what is watched. |
| ConfigIncludes.ConfigLoader.DecodeInclude | niri-config/src/lib.rs:346-392 | An include is refused without a home directory, at the depth limit, without a file name or when it includes itself, before anything is read. |
| ConfigIncludes.ConfigLoader.DecodeIncluded | niri-config/src/lib.rs:394-445 | The path is remembered even if it cannot be read; only a missing file may be optional. |
| ConfigIncludes.EndlessIncludesFail | niri-config/src/lib.rs:363-392 | A file that requires a cycle of files, or any endless chain, does not load, whatever other files there are. |
| ConfigIncludes.FlattenStaysShallow | niri-config/src/lib.rs:363-373 | No section comes from ten or more levels deep. |
| ConfigIncludes.DecodedNodeStaysOnTrack | niri-config/src/lib.rs:155-456 | Decoding one more node keeps the partial result in line with the specification of the whole file. |
| ConfigIncludes.FatalNodeEndsFile | niri-config/src/lib.rs:219-220 | A node that fails to decode ends its file, and nothing after it is read. |
| IncludeRoutes.LoadingFollowsRoutes | niri-config/src/lib.rs:495-532 | Loading succeeds if and only if every file on every route of includes is fine; it looks up only what is included on a route, all of it unless a file ends early, and merges exactly the sections on the routes at their depth. |
| IncludeRoutes.LoadsIff | niri-config/src/lib.rs:137-460 | From any file: no error if and only if each file that can be reached repeats no single section, has no node with an error, and includes only files that can be read or are optional and missing. |
| IncludeRoutes.EntersIffFollowed | niri-config/src/lib.rs:346-392 | An include means the path itself if absolute, else below the directory of the including file or below home; it is entered if and only if the path has a file name, is not on the route already, and is no more than nine deep. |
| IncludeRoutes.ReadsAreIncluded | niri-config/src/lib.rs:394-397 | A path is looked up only if some reachable file includes it, and then always unless a file on the way ends early; other errors do not matter. |
| IncludeRoutes.MergedIffFound | niri-config/src/lib.rs:406-419 | A section is merged if and only if it is in a reachable file, with the depth of that file. |
| IncludeRoutes.MergedInOrder | niri-config/src/lib.rs:155-155 | What comes first in a file is merged first, with its includes. |
| IncludeRoutes.IncludedPathsAreAbsolute | niri-config/src/lib.rs:347-361 | With an absolute main file and home directory every path looked up is absolute. |
| IncludeRoutes.RepeatableNames | niri-config/src/lib.rs:158-169 | The names that may repeat in a file are `include` and those of sections that add an item to a list. |
| ConfigSections.LoadedBindsAreLastDefinitions | niri-config/src/lib.rs:219-231 | Across all files: the binds are all sections put together with only the last bind of each key, keys are unique, and a bind is there if and only if it is in the last section that defines its key. |
| ConfigSections.BindsAreSurvivors | niri-config/src/lib.rs:219-231 | The loaded binds are, section by section and in order, what no later section defines again. |
| ConfigSections.MruBindsReplaceDefaults | niri-config/src/lib.rs:282-295 | The default window-switcher binds are dropped if and only if some section has such binds, and then only those count, by the same rule. |
| ConfigSections.ListsAreInOrder | niri-config/src/lib.rs:207-235 | Sections that may repeat, environment variables and ignored DRM devices add up in the order in which they are read. |
| ConfigSections.LastValueWins | niri-config/src/lib.rs:179-205 | For single sections, those of the layout and the window switcher included, the last file that sets a property decides it, and properties nobody sets keep their default. |
| ConfigSections.FoldAppend | niri-config/src/lib.rs:406-419 | Merging an included file in place is merging its sections before the rest. |
| ConfigSections.DepthMattersIff | niri-config/src/lib.rs:249-277 | Moving a section to an included file matters if and only if it has a border that switches neither on nor off while the border is off. |
| ConfigSections.BorderFollowsRules | niri-config/src/lib.rs:246-280 | The border is on if and only if the last section that decides it says so, where mentioning it in the main file decides it; the rest of the border follows the rules in order. |
| ConfigBinds.SurvivorsAreLastDefinitions | niri-config/src/lib.rs:226-230 | The survivors of overriding have unique keys and are exactly the last definitions. |
| ConfigBinds.SurvivorsAreLastOfEachKey | niri-config/src/lib.rs:226-230 | Overriding section by section gives all sections concatenated, with only the last bind of each key, in order. |
| ConfigBinds.FirstBindIsKept | niri-config/src/binds.rs:1032-1051 | Of binds with the same key in one section the first is kept. |
| ConfigBinds.CleanSectionIff | niri-config/src/binds.rs:1026-1055 | A section has no error if and only if every child of it becomes a bind. |
| ConfigBinds.OverrideAllGivesSurvivors | niri-config/src/lib.rs:226-230 | Overriding section after section gives the closed form. |
| ConfigBinds.OverrideSurvivors | niri-config/src/recent_windows.rs:60-66 | One more section on top of any number of earlier ones. |
| ConfigBinds.DecodeBinds | niri-config/src/binds.rs:1022-1057 | Keeps the first bind of every key; reports an error if and only if a child is malformed or a key repeats; a clean section is kept whole. |
| ConfigBinds.CleanSectionIsKept | niri-config/src/recent_windows.rs:265-289 | Without errors, decoding keeps every bind in order. |
| RuleMerging.MergedBordersApplyAlike | niri-config/src/appearance.rs:683-696 | Applying any list of border rules one by one is applying their merged rule, gradients included. |
| RuleMerging.MergingBordersIsApplying | niri-config/src/appearance.rs:315-331 | The same for two rules: merging is composition. |
| RuleMerging.MergingPaintIsApplying | niri-config/src/macros.rs:31-57 | A color clears the gradient and a gradient does not clear the color, alike in settings and rules. |
| RuleMerging.BorderRulesAreMonoid | niri-config/src/appearance.rs:683-696 | Merging is associative; the empty rule is neutral on the right, and on the left if and only if the rule is not both on and off. |
| RuleMerging.MergedShadowsApplyAlikeIff | niri-config/src/appearance.rs:698-712 | For shadows, one by one equals merged if and only if the last rule that switches the shadow is not both on and off. |
| RuleMerging.MergingShadowsIsApplyingIff | niri-config/src/appearance.rs:369-382 | For two rules: if and only if the second is not both on and off. |
| RuleMerging.MergedShadowsDifferInSwitch | niri-config/src/appearance.rs:369-382 | When they differ, they differ in the switch and nowhere else. |
| RuleMerging.TabIndicatorRulesAreMonoid | niri-config/src/appearance.rs:714-723 | Tab indicator rules merge associatively with a neutral element. |
| RuleMerging.BorderIsLastWords | niri-config/src/appearance.rs:315-331 | After any rules, the switch, the width and each color and gradient are what the last rule that mentions them says; a color clears earlier gradients, and `on` wins over `off`. |
| RuleMerging.ShadowIsLastWords | niri-config/src/appearance.rs:369-382 | The same for every part of a shadow, where `off` wins over `on`. |
| RuleMerging.TabIndicatorIsLastWords | niri-config/src/appearance.rs:714-723 | The same for merged tab indicator rules. |
| RuleMerging.MergeColorGradient | niri-config/src/macros.rs:31-43 | The two assignments for a setting. |
| RuleMerging.MergeColorGradientOpt | niri-config/src/macros.rs:45-57 | The two assignments for a rule. |
| RuleMerging.Border.MergeWith | niri-config/src/appearance.rs:315-331 | The field assignments add up to applying the rule. |
| RuleMerging.ResolvedBorderRule.MergeWith | niri-config/src/appearance.rs:683-696 | The field assignments add up to merging the rules, `on` winning over `off`. |
| RuleMerging.Shadow.MergeWith | niri-config/src/appearance.rs:369-382 | The field assignments add up to applying the rule, `off` winning over `on`. |
| RuleMerging.ResolvedShadowRule.MergeWith | niri-config/src/appearance.rs:698-712 | The field assignments add up to merging the rules, `on` winning over `off`. |
| FrameClocks.NextTimeIsSoundSlot | src/frame_clock.rs:56-97 | The target is after the last presentation and not before the sampled time; after the last presentation it is the first whole interval later than the sampled time, or with variable refresh the sampled time once that is an interval late. |
| FrameClocks.NothingToPredict | src/frame_clock.rs:59-64 | Without a refresh rate or a last presentation the target is the sampled time. |
| FrameClocks.MonotoneIff | src/frame_clock.rs:68-83 | A later sample gives no earlier target if and only if it is not the case that the earlier one skipped a slot, on the last presentation or far before it, and the later one did not. |
| FrameClocks.MonotoneUnderVrr | src/frame_clock.rs:90-96 | With variable refresh the target never moves back. |
| FrameClocks.NotMonotone | src/frame_clock.rs:68-83 | Two samples for which it does without. |
| FrameClocks.AheadSlots | src/frame_clock.rs:68-88 | Which slot an early or timely sample gets: two ahead on the last presentation and after a VBlank two or more intervals early, one ahead otherwise. |
| FrameClocks.SlotEndIsFirst | src/frame_clock.rs:88-88 | The rounded division gives the first multiple of the interval strictly above. |
| FrameClocks.FrameClock.NextPresentationTime | src/frame_clock.rs:56-97 | The local time is moved past the last presentation; the result is later than that and no earlier than the sample. |
| FrameClocks.FrameClock.SetVrr | src/frame_clock.rs:34-41 | Only a change of mode forgets the last presentation. |
| FrameClocks.FrameClock.Presented | src/frame_clock.rs:47-54 | A zero time is ignored. |
| CubicBezier.TForXIsAccurate | src/animation/bezier.rs:29-45 | With horizontal control points in [0, 1], the parameter found for x is within 3/2^32 of it along the x axis. |
| CubicBezier.BisectIsAccurate | src/animation/bezier.rs:33-44 | The error after any number of halvings of any bracket of x is at most one and a half times its final width. |
| CubicBezier.CubicSlope | src/animation/bezier.rs:19-27 | With control points in [0, 1] the cubic rises, with a slope of at most 3. |
| CubicBezier.CurveIsDeCasteljau | src/animation/bezier.rs:19-27 | Both coordinates are De Casteljau's construction from the control points in their order. |
| CubicBezier.EasingFollowsCurve | src/animation/bezier.rs:48-60 | The easing is 0 and 1 at its cut-offs, and in between the height of the curve at a point within 3/2^32 of x. |
| CubicBezier.TForXIsMonotone | src/animation/bezier.rs:29-45 | For any control points, a larger x gives no smaller parameter. |
| CubicBezier.BisectIsMonotone | src/animation/bezier.rs:33-44 | The same for any bracket, even where the curve turns back. |
| CubicBezier.EasingIsMonotone | src/animation/bezier.rs:48-60 | With vertical control points in [0, 1] the easing rises within [0, 1], across its cut-offs at both ends. |
| CubicBezier.ComputeTForX | src/animation/bezier.rs:29-45 | The 31-step loop computes the recursive bisection and stays in [0, 1]. |

## Left out

- SessionLockRuns.LockedSessionIsHidden: about what was rendered last, not what was presented, because the code confirms on render.
- EventStream.ClientsStayConsistent: asks full snapshots to be consistent, because the client takes them over as they are.
- OutputPlacement.NoConfigOverlapsIff: for outputs whose connectors do not match each other's names and whose sizes are positive; `NoOverlapIff` has no such condition.
- CubicBezier.TForXIsAccurate: in exact real numbers; rounding of 64-bit floating point is not modelled.
- FrameClocks.NextTimeIsSoundSlot: in unbounded nanoseconds; the range of 64-bit nanoseconds and of `Duration` is not modelled.
- OutputPlacement.GlobalSpace.RepositionOutputs: coordinates are unbounded; the build checks for overflow of 32-bit coordinates and panics. Logical sizes are reals.
- TransientOutputs.OutputConfig.ReloadConfig: compares sections by value, where the source compares floating-point fields, so a NaN scale would count as changed.
- ConfigSections.LastValueWins: properties replace one another; how nested sections merge field by field is modelled for the border and for rules only. The defaults that empty layout presets fall back to are left out.
- ConfigIncludes.Parse: starts from node trees that say whether decoding a node reports or raises an error; KDL parsing, error messages and spans are left out. Paths are lists of UTF-8 components, and after a failed load the half-merged config, which the source discards too, is unspecified.
- Default window-switcher binds are a parameter of loading; their actions and the conversion to ordinary binds add nothing to the argument.
- Everything else a redraw does: frame callbacks, on-demand variable refresh, screen casting, screencopy.
- Closing the screenshot UI and the window switcher when the session is locked; only the redraws they cause when an output is removed are modelled.
- Throttling of VBlanks and presentation feedback in the TTY backend.
- Layout, workspaces and windows, pointer and keyboard focus, spring and deceleration animations, IPC requests, D-Bus, rendering.

/**
  The state a client builds from the event stream, as values.

  `Apply` is what one event does to the state and `Accepts` what it expects of it: the client's
  code panics on an event about a window or workspace it was never told of.
 */
module EventStream {
  import opened Options

  type Id = nat

  datatype Workspace = Workspace(
    id: Id,
    idx: nat,
    name: Option<string>,
    output: Option<string>,
    isUrgent: bool,
    isActive: bool,
    isFocused: bool,
    activeWindowId: Option<Id>)

  datatype WindowLayout = WindowLayout(
    posInScrollingLayout: Option<(nat, nat)>,
    tileSize: (real, real),
    windowSize: (int, int),
    tilePosInWorkspaceView: Option<(real, real)>,
    windowOffsetInTile: (real, real))

  datatype Timestamp = Timestamp(secs: nat, nanos: nat)

  datatype Window = Window(
    id: Id,
    title: Option<string>,
    appId: Option<string>,
    pid: Option<int>,
    workspaceId: Option<Id>,
    isFocused: bool,
    isFloating: bool,
    isUrgent: bool,
    layout: WindowLayout,
    focusTimestamp: Option<Timestamp>)

  datatype KeyboardLayouts = KeyboardLayouts(names: seq<string>, currentIdx: nat)

  datatype Cast = Cast(
    streamId: Id,
    sessionId: Id,
    kind: string,
    target: string,
    isDynamicTarget: bool,
    isActive: bool,
    pid: Option<int>,
    pwNodeId: Option<nat>)

  datatype Event =
    | WorkspacesChanged(workspaces: seq<Workspace>)
    | WorkspaceUrgencyChanged(id: Id, urgent: bool)
    | WorkspaceActivated(id: Id, focused: bool)
    | WorkspaceActiveWindowChanged(workspaceId: Id, activeWindowId: Option<Id>)
    | WindowsChanged(windows: seq<Window>)
    | WindowOpenedOrChanged(window: Window)
    | WindowClosed(id: Id)
    | WindowFocusChanged(focus: Option<Id>)
    | WindowFocusTimestampChanged(id: Id, focusTimestamp: Option<Timestamp>)
    | WindowUrgencyChanged(id: Id, urgent: bool)
    | WindowLayoutsChanged(changes: seq<(Id, WindowLayout)>)
    | KeyboardLayoutsChanged(keyboardLayouts: KeyboardLayouts)
    | KeyboardLayoutSwitched(idx: nat)
    | OverviewOpenedOrClosed(isOpen: bool)
    | ConfigLoaded(failed: bool)
    | ScreenshotCaptured(path: Option<string>)
    | CastsChanged(casts: seq<Cast>)
    | CastStartedOrChanged(cast: Cast)
    | CastStopped(streamId: Id)
  {
    predicate ForWorkspaces() {
      WorkspacesChanged? || WorkspaceUrgencyChanged? || WorkspaceActivated? || WorkspaceActiveWindowChanged?
    }

    predicate ForWindows() {
      || WindowsChanged? || WindowOpenedOrChanged? || WindowClosed? || WindowFocusChanged?
      || WindowFocusTimestampChanged? || WindowUrgencyChanged? || WindowLayoutsChanged?
    }

    predicate ForKeyboardLayouts() { KeyboardLayoutsChanged? || KeyboardLayoutSwitched? }

    predicate ForCasts() { CastsChanged? || CastStartedOrChanged? || CastStopped? }
  }

  type Workspaces = map<Id, Workspace>
  type Windows = map<Id, Window>
  type Casts = map<Id, Cast>

  datatype State = State(
    workspaces: Workspaces,
    windows: Windows,
    keyboardLayouts: Option<KeyboardLayouts>,
    overviewOpen: bool,
    configFailed: bool,
    casts: Casts)

  const Default := State(map[], map[], None, false, false, map[])

  function WorkspaceKey(w: Workspace): Id { w.id }
  function WindowKey(w: Window): Id { w.id }
  function CastKey(c: Cast): Id { c.streamId }

  // ----- maps built from lists

  /** Collecting into a map: a later value replaces an earlier one with the same key. */
  function Index<V>(key: V -> Id, values: seq<V>): map<Id, V> {
    if values == [] then map[]
    else
      var last := values[|values| - 1];
      Index(key, values[..|values| - 1])[key(last) := last]
  }

  predicate Keyed<V>(key: V -> Id, m: map<Id, V>) {
    forall k | k in m :: key(m[k]) == k
  }

  /** The values of a map, each once, in some order. */
  ghost predicate Enumerates<V>(values: seq<V>, m: map<Id, V>) {
    exists keys: seq<Id> :: EnumeratesBy(keys, values, m)
  }

  predicate EnumeratesBy<V(==)>(keys: seq<Id>, values: seq<V>, m: map<Id, V>) {
    && |keys| == |values|
    && (forall i, j | 0 <= i < j < |keys| :: keys[i] != keys[j])
    && (forall i | 0 <= i < |keys| :: keys[i] in m && values[i] == m[keys[i]])
    && (forall k | k in m :: k in keys)
  }

  lemma {:induction false} IndexKeys<V>(key: V -> Id, values: seq<V>)
    ensures Keyed(key, Index(key, values))
    ensures forall k :: k in Index(key, values) <==> exists i :: 0 <= i < |values| && key(values[i]) == k
  {
    if values != [] {
      var n := |values| - 1;
      IndexKeys(key, values[..n]);
      forall k ensures k in Index(key, values) <==> exists i :: 0 <= i < |values| && key(values[i]) == k {
        if k in Index(key, values[..n]) {
          var i :| 0 <= i < n && key(values[..n][i]) == k;
          assert key(values[i]) == k;
        }
        if i :| 0 <= i < |values| && key(values[i]) == k && k != key(values[n]) {
          assert key(values[..n][i]) == k;
        }
      }
    }
  }

  /** Any enumeration of a keyed map, in whatever order, collects into that map again. */
  lemma {:induction false} IndexOfEnumeration<V>(key: V -> Id, keys: seq<Id>, values: seq<V>, m: map<Id, V>)
    requires Keyed(key, m) && EnumeratesBy(keys, values, m)
    ensures Index(key, values) == m
    decreases |values|
  {
    if values != [] {
      var n := |values| - 1;
      var rest := m - {keys[n]};
      IndexOfEnumeration(key, keys[..n], values[..n], rest);
      assert m == rest[keys[n] := values[n]];
    } else {
      assert m.Keys == {};
    }
  }

  // ----- one event

  predicate AcceptsWorkspaces(m: Workspaces, e: Event) {
    (e.WorkspaceActivated? ==> e.id in m) && (e.WorkspaceActiveWindowChanged? ==> e.workspaceId in m)
  }

  function ApplyWorkspaces(m: Workspaces, e: Event): Workspaces
    requires AcceptsWorkspaces(m, e)
  {
    match e
    case WorkspacesChanged(workspaces) => Index(WorkspaceKey, workspaces)
    case WorkspaceUrgencyChanged(id, urgent) => if id in m then m[id := m[id].(isUrgent := urgent)] else m
    case WorkspaceActivated(id, focused) => map k | k in m :: Activated(m[k], k == id, m[k].output == m[id].output, focused)
    case WorkspaceActiveWindowChanged(id, window) => m[id := m[id].(activeWindowId := window)]
    case _ => m
  }

  /** What an activation does to one workspace. */
  function Activated(w: Workspace, isTarget: bool, sameOutput: bool, focused: bool): Workspace {
    w.(isActive := if sameOutput then isTarget else w.isActive,
       isFocused := if focused then isTarget else w.isFocused)
  }

  predicate AcceptsWindows(m: Windows, e: Event) {
    && (e.WindowClosed? ==> e.id in m)
    && (e.WindowLayoutsChanged? ==> forall i | 0 <= i < |e.changes| :: e.changes[i].0 in m)
  }

  function ApplyWindows(m: Windows, e: Event): Windows
    requires AcceptsWindows(m, e)
  {
    match e
    case WindowsChanged(windows) => Index(WindowKey, windows)
    case WindowOpenedOrChanged(window) =>
      var m := m[window.id := window];
      if window.isFocused then Focused(m, Some(window.id)) else m
    case WindowClosed(id) => m - {id}
    case WindowFocusChanged(id) => Focused(m, id)
    case WindowFocusTimestampChanged(id, timestamp) => if id in m then m[id := m[id].(focusTimestamp := timestamp)] else m
    case WindowUrgencyChanged(id, urgent) => if id in m then m[id := m[id].(isUrgent := urgent)] else m
    case WindowLayoutsChanged(changes) => WithLayouts(m, changes)
    case _ => m
  }

  /** Exactly the given window is focused. */
  function Focused(m: Windows, id: Option<Id>): Windows {
    map k | k in m :: m[k].(isFocused := id == Some(k))
  }

  function WithLayouts(m: Windows, changes: seq<(Id, WindowLayout)>): (r: Windows)
    requires forall i | 0 <= i < |changes| :: changes[i].0 in m
    ensures r.Keys == m.Keys
  {
    if changes == [] then m
    else
      var (id, layout) := changes[|changes| - 1];
      var m := WithLayouts(m, changes[..|changes| - 1]);
      m[id := m[id].(layout := layout)]
  }

  predicate AcceptsKeyboardLayouts(k: Option<KeyboardLayouts>, e: Event) {
    e.KeyboardLayoutSwitched? ==> k.Some?
  }

  function ApplyKeyboardLayouts(k: Option<KeyboardLayouts>, e: Event): Option<KeyboardLayouts>
    requires AcceptsKeyboardLayouts(k, e)
  {
    match e
    case KeyboardLayoutsChanged(keyboardLayouts) => Some(keyboardLayouts)
    case KeyboardLayoutSwitched(idx) => Some(k.value.(currentIdx := idx))
    case _ => k
  }

  predicate AcceptsCasts(m: Casts, e: Event) {
    e.CastStopped? ==> e.streamId in m
  }

  function ApplyCasts(m: Casts, e: Event): Casts
    requires AcceptsCasts(m, e)
  {
    match e
    case CastsChanged(casts) => Index(CastKey, casts)
    case CastStartedOrChanged(cast) => m[cast.streamId := cast]
    case CastStopped(id) => m - {id}
    case _ => m
  }

  predicate Accepts(s: State, e: Event) {
    && AcceptsWorkspaces(s.workspaces, e)
    && AcceptsWindows(s.windows, e)
    && AcceptsKeyboardLayouts(s.keyboardLayouts, e)
    && AcceptsCasts(s.casts, e)
  }

  function Apply(s: State, e: Event): State
    requires Accepts(s, e)
  {
    State(
      ApplyWorkspaces(s.workspaces, e),
      ApplyWindows(s.windows, e),
      ApplyKeyboardLayouts(s.keyboardLayouts, e),
      if e.OverviewOpenedOrClosed? then e.isOpen else s.overviewOpen,
      if e.ConfigLoaded? then e.failed else s.configFailed,
      ApplyCasts(s.casts, e))
  }

  // ----- streams

  predicate AcceptsAll(s: State, events: seq<Event>)
    decreases |events|
  {
    events == [] || (Accepts(s, events[0]) && AcceptsAll(Apply(s, events[0]), events[1..]))
  }

  function ApplyAll(s: State, events: seq<Event>): State
    requires AcceptsAll(s, events)
    decreases |events|
  {
    if events == [] then s else ApplyAll(Apply(s, events[0]), events[1..])
  }

  ghost predicate IsKeyed(s: State) {
    && Keyed(WorkspaceKey, s.workspaces)
    && Keyed(WindowKey, s.windows)
    && Keyed(CastKey, s.casts)
  }

  lemma {:induction false} WithLayoutsKeepsIds(m: Windows, changes: seq<(Id, WindowLayout)>)
    requires forall i | 0 <= i < |changes| :: changes[i].0 in m
    ensures forall k | k in m :: WithLayouts(m, changes)[k].(layout := m[k].layout) == m[k]
  {
    if changes != [] {
      WithLayoutsKeepsIds(m, changes[..|changes| - 1]);
    }
  }

  lemma ApplyWorkspacesKeepsKeyed(m: Workspaces, e: Event)
    requires Keyed(WorkspaceKey, m) && AcceptsWorkspaces(m, e)
    ensures Keyed(WorkspaceKey, ApplyWorkspaces(m, e))
  {
    if e.WorkspacesChanged? {
      IndexKeys(WorkspaceKey, e.workspaces);
    }
  }

  lemma ApplyWindowsKeepsKeyed(m: Windows, e: Event)
    requires Keyed(WindowKey, m) && AcceptsWindows(m, e)
    ensures Keyed(WindowKey, ApplyWindows(m, e))
  {
    if e.WindowsChanged? {
      IndexKeys(WindowKey, e.windows);
    } else if e.WindowLayoutsChanged? {
      WithLayoutsKeepsIds(m, e.changes);
    }
  }

  lemma ApplyCastsKeepsKeyed(m: Casts, e: Event)
    requires Keyed(CastKey, m) && AcceptsCasts(m, e)
    ensures Keyed(CastKey, ApplyCasts(m, e))
  {
    if e.CastsChanged? {
      IndexKeys(CastKey, e.casts);
    }
  }

  lemma ApplyKeepsKeyed(s: State, e: Event)
    requires IsKeyed(s) && Accepts(s, e)
    ensures IsKeyed(Apply(s, e))
  {
    ApplyWorkspacesKeepsKeyed(s.workspaces, e);
    ApplyWindowsKeepsKeyed(s.windows, e);
    ApplyCastsKeepsKeyed(s.casts, e);
  }

  lemma {:induction false} ApplyAllKeepsKeyed(s: State, events: seq<Event>)
    requires IsKeyed(s) && AcceptsAll(s, events)
    ensures IsKeyed(ApplyAll(s, events))
    decreases |events|
  {
    if events != [] {
      ApplyKeepsKeyed(s, events[0]);
      ApplyAllKeepsKeyed(Apply(s, events[0]), events[1..]);
    }
  }

  // ----- replication

  /** The events that `replicate` returns, for some iteration order of each of the maps. */
  ghost predicate IsReplication(s: State, events: seq<Event>) {
    exists workspaces, windows, casts ::
      && Enumerates(workspaces, s.workspaces)
      && Enumerates(windows, s.windows)
      && Enumerates(casts, s.casts)
      && events == ReplicationOf(s, workspaces, windows, casts)
  }

  function ReplicationOf(s: State, workspaces: seq<Workspace>, windows: seq<Window>, casts: seq<Cast>): seq<Event> {
    [WorkspacesChanged(workspaces)]
    + [WindowsChanged(windows)]
    + (if s.keyboardLayouts.Some? then [KeyboardLayoutsChanged(s.keyboardLayouts.value)] else [])
    + [OverviewOpenedOrClosed(s.overviewOpen)]
    + [ConfigLoaded(s.configFailed)]
    + [CastsChanged(casts)]
  }

  lemma {:induction false} ApplyAllAppend(s: State, a: seq<Event>, b: seq<Event>)
    requires AcceptsAll(s, a)
    ensures AcceptsAll(s, a + b) <==> AcceptsAll(ApplyAll(s, a), b)
    ensures AcceptsAll(s, a + b) ==> ApplyAll(s, a + b) == ApplyAll(ApplyAll(s, a), b)
    decreases |a|
  {
    if a == [] {
      assert a + b == b;
    } else {
      assert (a + b)[1..] == a[1..] + b;
      ApplyAllAppend(Apply(s, a[0]), a[1..], b);
    }
  }

  lemma ApplyOne(s: State, e: Event)
    ensures AcceptsAll(s, [e]) <==> Accepts(s, e)
    ensures Accepts(s, e) ==> ApplyAll(s, [e]) == Apply(s, e)
  {
    assert [e][1..] == [];
  }

  lemma ThenApply(s: State, a: seq<Event>, e: Event)
    requires AcceptsAll(s, a) && Accepts(ApplyAll(s, a), e)
    ensures AcceptsAll(s, a + [e]) && ApplyAll(s, a + [e]) == Apply(ApplyAll(s, a), e)
  {
    ApplyAllAppend(s, a, [e]);
    ApplyOne(ApplyAll(s, a), e);
  }

  /** Replaying a replication from scratch gives the replicated state. */
  lemma ReplicationRestores(s: State, events: seq<Event>)
    requires IsKeyed(s) && IsReplication(s, events)
    ensures AcceptsAll(Default, events) && ApplyAll(Default, events) == s
  {
    var workspaces, windows, casts :|
      && Enumerates(workspaces, s.workspaces)
      && Enumerates(windows, s.windows)
      && Enumerates(casts, s.casts)
      && events == ReplicationOf(s, workspaces, windows, casts);
    var byWorkspace :| EnumeratesBy(byWorkspace, workspaces, s.workspaces);
    var byWindow :| EnumeratesBy(byWindow, windows, s.windows);
    var byCast :| EnumeratesBy(byCast, casts, s.casts);
    IndexOfEnumeration(WorkspaceKey, byWorkspace, workspaces, s.workspaces);
    IndexOfEnumeration(WindowKey, byWindow, windows, s.windows);
    IndexOfEnumeration(CastKey, byCast, casts, s.casts);

    ReplayRestores(s, workspaces, windows, casts);
  }

  lemma ReplayRestores(s: State, workspaces: seq<Workspace>, windows: seq<Window>, casts: seq<Cast>)
    requires Index(WorkspaceKey, workspaces) == s.workspaces
    requires Index(WindowKey, windows) == s.windows
    requires Index(CastKey, casts) == s.casts
    ensures var events := ReplicationOf(s, workspaces, windows, casts);
      AcceptsAll(Default, events) && ApplyAll(Default, events) == s
  {
    var replayed := [WorkspacesChanged(workspaces)];
    ApplyOne(Default, WorkspacesChanged(workspaces));
    ThenApply(Default, replayed, WindowsChanged(windows));
    replayed := replayed + [WindowsChanged(windows)];
    if s.keyboardLayouts.Some? {
      ThenApply(Default, replayed, KeyboardLayoutsChanged(s.keyboardLayouts.value));
      replayed := replayed + [KeyboardLayoutsChanged(s.keyboardLayouts.value)];
    }
    var state := State(s.workspaces, s.windows, s.keyboardLayouts, false, false, map[]);
    assert ApplyAll(Default, replayed) == state;
    ReplayTail(state, s, casts);
    ApplyAllAppend(Default, replayed, [OverviewOpenedOrClosed(s.overviewOpen), ConfigLoaded(s.configFailed), CastsChanged(casts)]);
    assert replayed + [OverviewOpenedOrClosed(s.overviewOpen), ConfigLoaded(s.configFailed), CastsChanged(casts)]
      == ReplicationOf(s, workspaces, windows, casts);
  }

  lemma ReplayTail(from: State, s: State, casts: seq<Cast>)
    requires from == State(s.workspaces, s.windows, s.keyboardLayouts, false, false, map[])
    requires Index(CastKey, casts) == s.casts
    ensures var tail := [OverviewOpenedOrClosed(s.overviewOpen), ConfigLoaded(s.configFailed), CastsChanged(casts)];
      AcceptsAll(from, tail) && ApplyAll(from, tail) == s
  {
    var overview, config := OverviewOpenedOrClosed(s.overviewOpen), ConfigLoaded(s.configFailed);
    ApplyOne(from, overview);
    ThenApply(from, [overview], config);
    ThenApply(from, [overview] + [config], CastsChanged(casts));
    assert [overview] + [config] + [CastsChanged(casts)] == [overview, config, CastsChanged(casts)];
  }

  /**
    A client that joins late sees what the others see: whatever happened before, a replication in
    any iteration order followed by the later events gives the state of a client that saw it all,
    and is accepted whenever the original stream is.
   */
  lemma LateJoiner(history: seq<Event>, replication: seq<Event>, later: seq<Event>)
    requires AcceptsAll(Default, history)
    requires IsReplication(ApplyAll(Default, history), replication)
    ensures AcceptsAll(Default, replication + later) <==> AcceptsAll(Default, history + later)
    ensures AcceptsAll(Default, history + later) ==>
      ApplyAll(Default, replication + later) == ApplyAll(Default, history + later)
  {
    ApplyAllKeepsKeyed(Default, history);
    ReplicationRestores(ApplyAll(Default, history), replication);
    ApplyAllAppend(Default, history, later);
    ApplyAllAppend(Default, replication, later);
  }

  // ----- what a client can rely on

  predicate AtMostOneFocusedWindow(m: Windows) {
    forall k, l | k in m && l in m && m[k].isFocused && m[l].isFocused :: k == l
  }

  predicate AtMostOneFocusedWorkspace(m: Workspaces) {
    forall k, l | k in m && l in m && m[k].isFocused && m[l].isFocused :: k == l
  }

  ghost predicate IsActiveOn(m: Workspaces, k: Id, output: Option<string>) {
    k in m && m[k].output == output && m[k].isActive
  }

  /** At most one active workspace per output, and exactly one on an output that has workspaces. */
  ghost predicate OneActivePerOutput(m: Workspaces) {
    && (forall k, l, output | IsActiveOn(m, k, output) && IsActiveOn(m, l, output) :: k == l)
    && (forall k | k in m && m[k].output.Some? :: exists l :: IsActiveOn(m, l, m[k].output))
  }

  ghost predicate Consistent(s: State) {
    && AtMostOneFocusedWindow(s.windows)
    && AtMostOneFocusedWorkspace(s.workspaces)
    && OneActivePerOutput(s.workspaces)
  }

  /** Full snapshots have to be consistent themselves; nothing is asked of the other events. */
  ghost predicate SnapshotsAreConsistent(e: Event) {
    match e
    case WorkspacesChanged(workspaces) =>
      var m := Index(WorkspaceKey, workspaces);
      AtMostOneFocusedWorkspace(m) && OneActivePerOutput(m)
    case WindowsChanged(windows) => AtMostOneFocusedWindow(Index(WindowKey, windows))
    case _ => true
  }

  lemma ApplyWorkspacesKeepsConsistent(m: Workspaces, e: Event)
    requires AtMostOneFocusedWorkspace(m) && OneActivePerOutput(m)
    requires AcceptsWorkspaces(m, e) && SnapshotsAreConsistent(e)
    ensures AtMostOneFocusedWorkspace(ApplyWorkspaces(m, e)) && OneActivePerOutput(ApplyWorkspaces(m, e))
  {
    var n := ApplyWorkspaces(m, e);
    if !e.WorkspacesChanged? {
      forall k, l, output | IsActiveOn(n, k, output) && IsActiveOn(n, l, output) ensures k == l {
        assert (e.WorkspaceActivated? && output == m[e.id].output) || (IsActiveOn(m, k, output) && IsActiveOn(m, l, output));
      }
      forall k | k in n && n[k].output.Some? ensures exists l :: IsActiveOn(n, l, n[k].output) {
        if e.WorkspaceActivated? && m[k].output == m[e.id].output {
          assert IsActiveOn(n, e.id, n[k].output);
        } else {
          var l :| IsActiveOn(m, l, m[k].output);
          assert IsActiveOn(n, l, n[k].output);
        }
      }
    }
  }

  lemma ApplyWindowsKeepsConsistent(m: Windows, e: Event)
    requires AtMostOneFocusedWindow(m) && AcceptsWindows(m, e) && SnapshotsAreConsistent(e)
    ensures AtMostOneFocusedWindow(ApplyWindows(m, e))
  {
    if e.WindowLayoutsChanged? {
      WithLayoutsKeepsIds(m, e.changes);
    }
  }

  lemma {:induction false} ApplyAllKeepsConsistent(s: State, events: seq<Event>)
    requires Consistent(s) && AcceptsAll(s, events)
    requires forall i | 0 <= i < |events| :: SnapshotsAreConsistent(events[i])
    ensures Consistent(ApplyAll(s, events))
    decreases |events|
  {
    if events != [] {
      assert SnapshotsAreConsistent(events[0]);
      ApplyWorkspacesKeepsConsistent(s.workspaces, events[0]);
      ApplyWindowsKeepsConsistent(s.windows, events[0]);
      forall i | 0 <= i < |events| - 1 ensures SnapshotsAreConsistent(events[1..][i]) {
        assert events[1..][i] == events[i + 1];
      }
      ApplyAllKeepsConsistent(Apply(s, events[0]), events[1..]);
    }
  }

  /** From an empty client, every stream with consistent snapshots keeps the promises of the API. */
  lemma ClientsStayConsistent(events: seq<Event>)
    requires AcceptsAll(Default, events)
    requires forall i | 0 <= i < |events| :: SnapshotsAreConsistent(events[i])
    ensures Consistent(ApplyAll(Default, events)) && IsKeyed(ApplyAll(Default, events))
  {
    ApplyAllKeepsConsistent(Default, events);
    ApplyAllKeepsKeyed(Default, events);
  }
}

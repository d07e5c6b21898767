/**
  The client's state parts, updated in place.

  The parts scan their maps in an arbitrary order and stop early where they can; each method is
  tied to the keyed update of `EventStream`.
 */
module EventStreamClient {
  import opened Options
  import opened EventStream

  /** The values of a map in whatever order the iteration happens to have. */
  method Values<V>(m: map<Id, V>) returns (values: seq<V>)
    ensures Enumerates(values, m)
  {
    values := [];
    ghost var keys: seq<Id> := [];
    var rest := m.Keys;
    while rest != {}
      invariant rest <= m.Keys
      invariant forall k | k in keys :: k !in rest
      invariant EnumeratesBy(keys, values, map k | k in m && k !in rest :: m[k])
    {
      var k :| k in rest;
      values, rest := values + [m[k]], rest - {k};
      keys := keys + [k];
    }
    assert m == map k | k in m && k !in rest :: m[k];
    assert EnumeratesBy(keys, values, m);
  }

  class WorkspacesState {
    var workspaces: Workspaces

    constructor ()
      ensures workspaces == map[]
    {
      workspaces := map[];
    }

    method Replicate() returns (events: seq<Event>)
      ensures |events| == 1 && events[0].WorkspacesChanged? && Enumerates(events[0].workspaces, workspaces)
    {
      var values := Values(workspaces);
      events := [WorkspacesChanged(values)];
    }

    method Apply(event: Event) returns (ignored: Option<Event>)
      requires Keyed(WorkspaceKey, workspaces) && AcceptsWorkspaces(workspaces, event)
      modifies this
      ensures ignored == if event.ForWorkspaces() then None else Some(event)
      ensures workspaces == ApplyWorkspaces(old(workspaces), event)
    {
      match event {
        case WorkspacesChanged(list) =>
          workspaces := Index(WorkspaceKey, list);
        case WorkspaceUrgencyChanged(id, urgent) =>
          SetUrgent(id, urgent);
        case WorkspaceActivated(id, focused) =>
          Activate(id, focused);
        case WorkspaceActiveWindowChanged(id, window) =>
          workspaces := workspaces[id := workspaces[id].(activeWindowId := window)];
        case _ =>
          return Some(event);
      }
      return None;
    }

    method SetUrgent(id: Id, urgent: bool)
      requires Keyed(WorkspaceKey, workspaces)
      modifies this
      ensures workspaces == ApplyWorkspaces(old(workspaces), WorkspaceUrgencyChanged(id, urgent))
    {
      ghost var before := workspaces;
      var rest := workspaces.Keys;
      while rest != {}
        invariant rest <= workspaces.Keys == before.Keys
        invariant forall k | k in before ::
          workspaces[k] == if k == id && k !in rest then before[k].(isUrgent := urgent) else before[k]
      {
        var k :| k in rest;
        if workspaces[k].id == id {
          workspaces := workspaces[k := workspaces[k].(isUrgent := urgent)];
        }
        rest := rest - {k};
      }
    }

    method Activate(id: Id, focused: bool)
      requires Keyed(WorkspaceKey, workspaces) && id in workspaces
      modifies this
      ensures workspaces == ApplyWorkspaces(old(workspaces), WorkspaceActivated(id, focused))
    {
      ghost var before := workspaces;
      var output := workspaces[id].output;
      var rest := workspaces.Keys;
      while rest != {}
        invariant rest <= workspaces.Keys == before.Keys
        invariant forall k | k in before ::
          workspaces[k] == if k in rest then before[k] else Activated(before[k], k == id, before[k].output == output, focused)
      {
        var k :| k in rest;
        var w := workspaces[k];
        var gotActivated := w.id == id;
        if w.output == output {
          w := w.(isActive := gotActivated);
        }
        if focused {
          w := w.(isFocused := gotActivated);
        }
        workspaces := workspaces[k := w];
        rest := rest - {k};
      }
    }
  }

  class WindowsState {
    var windows: Windows

    constructor ()
      ensures windows == map[]
    {
      windows := map[];
    }

    method Replicate() returns (events: seq<Event>)
      ensures |events| == 1 && events[0].WindowsChanged? && Enumerates(events[0].windows, windows)
    {
      var values := Values(windows);
      events := [WindowsChanged(values)];
    }

    method Apply(event: Event) returns (ignored: Option<Event>)
      requires Keyed(WindowKey, windows) && AcceptsWindows(windows, event)
      modifies this
      ensures ignored == if event.ForWindows() then None else Some(event)
      ensures windows == ApplyWindows(old(windows), event)
    {
      match event {
        case WindowsChanged(list) =>
          windows := Index(WindowKey, list);
        case WindowOpenedOrChanged(window) =>
          windows := windows[window.id := window];
          if window.isFocused {
            UnfocusOthers(window.id);
          }
        case WindowClosed(id) =>
          windows := windows - {id};
        case WindowFocusChanged(id) =>
          SetFocus(id);
        case WindowFocusTimestampChanged(id, timestamp) =>
          var found := Find(id);
          if found.Some? {
            windows := windows[found.value := windows[found.value].(focusTimestamp := timestamp)];
          }
        case WindowUrgencyChanged(id, urgent) =>
          var found := Find(id);
          if found.Some? {
            windows := windows[found.value := windows[found.value].(isUrgent := urgent)];
          }
        case WindowLayoutsChanged(changes) =>
          SetLayouts(changes);
        case _ =>
          return Some(event);
      }
      return None;
    }

    /** Scans for the window with this id and stops at the first one. */
    method Find(id: Id) returns (found: Option<Id>)
      requires Keyed(WindowKey, windows)
      ensures found == if id in windows then Some(id) else None
    {
      var rest := windows.Keys;
      while rest != {}
        invariant rest <= windows.Keys
        invariant forall k | k in windows && k !in rest :: windows[k].id != id
      {
        var k :| k in rest;
        if windows[k].id == id {
          return Some(k);
        }
        rest := rest - {k};
      }
      return None;
    }

    method UnfocusOthers(id: Id)
      requires Keyed(WindowKey, windows) && id in windows && windows[id].isFocused
      modifies this
      ensures windows == Focused(old(windows), Some(id))
    {
      ghost var before := windows;
      var rest := windows.Keys;
      while rest != {}
        invariant rest <= windows.Keys == before.Keys
        invariant forall k | k in before ::
          windows[k] == if k in rest then before[k] else before[k].(isFocused := Some(id) == Some(k))
      {
        var k :| k in rest;
        if windows[k].id != id {
          windows := windows[k := windows[k].(isFocused := false)];
        }
        rest := rest - {k};
      }
    }

    method SetFocus(id: Option<Id>)
      requires Keyed(WindowKey, windows)
      modifies this
      ensures windows == Focused(old(windows), id)
    {
      ghost var before := windows;
      var rest := windows.Keys;
      while rest != {}
        invariant rest <= windows.Keys == before.Keys
        invariant forall k | k in before ::
          windows[k] == if k in rest then before[k] else before[k].(isFocused := id == Some(k))
      {
        var k :| k in rest;
        windows := windows[k := windows[k].(isFocused := Some(windows[k].id) == id)];
        rest := rest - {k};
      }
    }

    method SetLayouts(changes: seq<(Id, WindowLayout)>)
      requires forall i | 0 <= i < |changes| :: changes[i].0 in windows
      modifies this
      ensures windows == WithLayouts(old(windows), changes)
    {
      ghost var before := windows;
      for i := 0 to |changes|
        invariant windows == WithLayouts(before, changes[..i])
      {
        var (id, layout) := changes[i];
        assert changes[..i + 1][..i] == changes[..i];
        windows := windows[id := windows[id].(layout := layout)];
      }
      assert changes[..|changes|] == changes;
    }
  }

  class KeyboardLayoutsState {
    var keyboardLayouts: Option<KeyboardLayouts>

    constructor ()
      ensures keyboardLayouts == None
    {
      keyboardLayouts := None;
    }

    method Replicate() returns (events: seq<Event>)
      ensures events == if keyboardLayouts.Some? then [KeyboardLayoutsChanged(keyboardLayouts.value)] else []
    {
      events := if keyboardLayouts.Some? then [KeyboardLayoutsChanged(keyboardLayouts.value)] else [];
    }

    method Apply(event: Event) returns (ignored: Option<Event>)
      requires AcceptsKeyboardLayouts(keyboardLayouts, event)
      modifies this
      ensures ignored == if event.ForKeyboardLayouts() then None else Some(event)
      ensures keyboardLayouts == ApplyKeyboardLayouts(old(keyboardLayouts), event)
    {
      match event {
        case KeyboardLayoutsChanged(layouts) =>
          keyboardLayouts := Some(layouts);
        case KeyboardLayoutSwitched(idx) =>
          keyboardLayouts := Some(keyboardLayouts.value.(currentIdx := idx));
        case _ =>
          return Some(event);
      }
      return None;
    }
  }

  class OverviewState {
    var isOpen: bool

    constructor ()
      ensures !isOpen
    {
      isOpen := false;
    }

    method Apply(event: Event) returns (ignored: Option<Event>)
      modifies this
      ensures ignored == if event.OverviewOpenedOrClosed? then None else Some(event)
      ensures isOpen == if event.OverviewOpenedOrClosed? then event.isOpen else old(isOpen)
    {
      if event.OverviewOpenedOrClosed? {
        isOpen := event.isOpen;
        return None;
      }
      return Some(event);
    }
  }

  class ConfigState {
    var failed: bool

    constructor ()
      ensures !failed
    {
      failed := false;
    }

    method Apply(event: Event) returns (ignored: Option<Event>)
      modifies this
      ensures ignored == if event.ConfigLoaded? then None else Some(event)
      ensures failed == if event.ConfigLoaded? then event.failed else old(failed)
    {
      if event.ConfigLoaded? {
        failed := event.failed;
        return None;
      }
      return Some(event);
    }
  }

  class CastsState {
    var casts: Casts

    constructor ()
      ensures casts == map[]
    {
      casts := map[];
    }

    method Replicate() returns (events: seq<Event>)
      ensures |events| == 1 && events[0].CastsChanged? && Enumerates(events[0].casts, casts)
    {
      var values := Values(casts);
      events := [CastsChanged(values)];
    }

    method Apply(event: Event) returns (ignored: Option<Event>)
      requires AcceptsCasts(casts, event)
      modifies this
      ensures ignored == if event.ForCasts() then None else Some(event)
      ensures casts == ApplyCasts(old(casts), event)
    {
      match event {
        case CastsChanged(list) =>
          casts := Index(CastKey, list);
        case CastStartedOrChanged(cast) =>
          casts := casts[cast.streamId := cast];
        case CastStopped(id) =>
          casts := casts - {id};
        case _ =>
          return Some(event);
      }
      return None;
    }
  }

  class EventStreamState {
    const workspaces: WorkspacesState
    const windows: WindowsState
    const keyboardLayouts: KeyboardLayoutsState
    const overview: OverviewState
    const config: ConfigState
    const casts: CastsState

    ghost function Parts(): set<object> {
      {workspaces, windows, keyboardLayouts, overview, config, casts}
    }

    ghost function Contents(): State
      reads Parts()
    {
      State(workspaces.workspaces, windows.windows, keyboardLayouts.keyboardLayouts, overview.isOpen, config.failed, casts.casts)
    }

    ghost predicate Valid()
      reads Parts()
    {
      IsKeyed(Contents())
    }

    constructor ()
      ensures Valid() && Contents() == Default && fresh(Parts())
    {
      workspaces := new WorkspacesState();
      windows := new WindowsState();
      keyboardLayouts := new KeyboardLayoutsState();
      overview := new OverviewState();
      config := new ConfigState();
      casts := new CastsState();
    }

    method Replicate() returns (events: seq<Event>)
      ensures IsReplication(Contents(), events)
    {
      var ofWorkspaces := workspaces.Replicate();
      var ofWindows := windows.Replicate();
      var ofKeyboardLayouts := keyboardLayouts.Replicate();
      var ofCasts := casts.Replicate();
      events := ofWorkspaces;
      events := events + ofWindows;
      events := events + ofKeyboardLayouts;
      events := events + [OverviewOpenedOrClosed(overview.isOpen)];
      events := events + [ConfigLoaded(config.failed)];
      events := events + ofCasts;
      assert events == ReplicationOf(Contents(), ofWorkspaces[0].workspaces, ofWindows[0].windows, ofCasts[0].casts);
    }

    /** Offers the event to each part in turn; returns it if no part wanted it. */
    method Apply(event: Event) returns (ignored: Option<Event>)
      requires Valid() && Accepts(Contents(), event)
      modifies Parts()
      ensures Valid() && Contents() == EventStream.Apply(old(Contents()), event)
      ensures ignored == if event.ScreenshotCaptured? then Some(event) else None
    {
      ApplyKeepsKeyed(Contents(), event);
      ignored := workspaces.Apply(event);
      if ignored.None? {
        return;
      }
      ignored := windows.Apply(event);
      if ignored.None? {
        return;
      }
      ignored := keyboardLayouts.Apply(event);
      if ignored.None? {
        return;
      }
      ignored := overview.Apply(event);
      if ignored.None? {
        return;
      }
      ignored := config.Apply(event);
      if ignored.None? {
        return;
      }
      ignored := casts.Apply(event);
    }
  }
}

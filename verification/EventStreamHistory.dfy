/**
  The client's state as a function of the events it received.

  Every property of a window, workspace or cast has a `word`: what an event says about it, or
  nothing. The words do not refer to the state or to how events are applied; a property is what was
  said last, and an event is accepted exactly if what it is about was introduced and not removed.
 */
module EventStreamHistory {
  import opened Options
  import opened LastWords
  import opened EventStream

  /** The value, if something is known about the property at all. */
  type Word<V> = Option<Option<V>>

  function Says<V>(v: V): Word<V> { Some(Some(v)) }

  /** Whenever there is a value after an event, it is what the event says, or else what it was. */
  ghost predicate IsDecidedBy<V>(part: State -> Option<V>, word: Event -> Word<V>) {
    forall s, e | Accepts(s, e) && part(Apply(s, e)).Some? :: part(Apply(s, e)) == word(e).GetOr(part(s))
  }

  lemma {:induction false} AcceptsPrefix(s: State, a: seq<Event>, b: seq<Event>)
    requires AcceptsAll(s, a + b)
    ensures AcceptsAll(s, a)
    decreases |a|
  {
    if a != [] {
      assert (a + b)[1..] == a[1..] + b;
      AcceptsPrefix(Apply(s, a[0]), a[1..], b);
    }
  }

  /** The last event of an accepted stream. */
  lemma LastStep(s: State, events: seq<Event>)
    requires events != [] && AcceptsAll(s, events)
    ensures var n := |events| - 1;
      && AcceptsAll(s, events[..n])
      && Accepts(ApplyAll(s, events[..n]), events[n])
      && ApplyAll(s, events) == Apply(ApplyAll(s, events[..n]), events[n])
  {
    var n := |events| - 1;
    assert events == events[..n] + [events[n]];
    AcceptsPrefix(s, events[..n], [events[n]]);
    ApplyAllAppend(s, events[..n], [events[n]]);
    ApplyOne(ApplyAll(s, events[..n]), events[n]);
  }

  lemma {:induction false} PartIsLastWord<V>(part: State -> Option<V>, word: Event -> Word<V>, s: State, events: seq<Event>)
    requires IsDecidedBy(part, word) && AcceptsAll(s, events)
    ensures part(ApplyAll(s, events)).Some? ==> part(ApplyAll(s, events)) == LastWord(word, events, part(s))
    decreases |events|
  {
    if events != [] {
      LastStep(s, events);
      PartIsLastWord(part, word, s, events[..|events| - 1]);
    }
  }

  // ----- snapshots

  /** The value with this key that a list of values leaves: the last one. */
  function Listed<V>(key: V -> Id, values: seq<V>, k: Id): Option<V> {
    if values == [] then None
    else if key(values[|values| - 1]) == k then Some(values[|values| - 1])
    else Listed(key, values[..|values| - 1], k)
  }

  lemma {:induction false} IndexIsListed<V>(key: V -> Id, values: seq<V>, k: Id)
    ensures k in Index(key, values) <==> Listed(key, values, k).Some?
    ensures k in Index(key, values) ==> Index(key, values)[k] == Listed(key, values, k).value
  {
    if values != [] {
      IndexIsListed(key, values[..|values| - 1], k);
    }
  }

  // ----- windows

  function WindowAt(s: State, k: Id): Option<Window> {
    if k in s.windows then Some(s.windows[k]) else None
  }

  /** A window as far as only snapshots and openings say anything about it. */
  function Lasting(w: Window): Window {
    w.(isFocused := false, isUrgent := false, focusTimestamp := None, layout := NO_LAYOUT)
  }

  const NO_LAYOUT := WindowLayout(None, (0.0, 0.0), (0, 0), None, (0.0, 0.0))

  /** The window as a snapshot or an opening gives it. */
  function Given(e: Event, k: Id): Option<Window> {
    match e
    case WindowsChanged(windows) => Listed(WindowKey, windows, k)
    case WindowOpenedOrChanged(window) => if window.id == k then Some(window) else None
    case _ => None
  }

  function HasFocus(w: Window): bool { w.isFocused }
  function HasUrgency(w: Window): bool { w.isUrgent }
  function TimestampOf(w: Window): Option<Timestamp> { w.focusTimestamp }
  function LayoutOf(w: Window): WindowLayout { w.layout }

  /** What an event says of a property if it gives the whole window. */
  function GivenWord<V>(e: Event, k: Id, property: Window -> V): Word<V> {
    var given := Given(e, k);
    if given.Some? then Says(property(given.value)) else None
  }

  function IsOpenWord(e: Event, k: Id): Word<bool> {
    match e
    case WindowsChanged(windows) => Says(Listed(WindowKey, windows, k).Some?)
    case WindowOpenedOrChanged(window) => if window.id == k then Says(true) else None
    case WindowClosed(id) => if id == k then Says(false) else None
    case _ => None
  }

  function FocusWord(e: Event, k: Id): Word<bool> {
    match e
    case WindowFocusChanged(focus) => Says(focus == Some(k))
    case WindowOpenedOrChanged(window) =>
      if window.id == k then Says(window.isFocused) else if window.isFocused then Says(false) else None
    case _ => GivenWord(e, k, HasFocus)
  }

  function UrgencyWord(e: Event, k: Id): Word<bool> {
    if e.WindowUrgencyChanged? && e.id == k then Says(e.urgent)
    else GivenWord(e, k, HasUrgency)
  }

  function TimestampWord(e: Event, k: Id): Word<Option<Timestamp>> {
    if e.WindowFocusTimestampChanged? && e.id == k then Says(e.focusTimestamp)
    else GivenWord(e, k, TimestampOf)
  }

  /** The last of the changes that are about this window. */
  function ChangedLayout(changes: seq<(Id, WindowLayout)>, k: Id): Option<WindowLayout> {
    if changes == [] then None
    else if changes[|changes| - 1].0 == k then Some(changes[|changes| - 1].1)
    else ChangedLayout(changes[..|changes| - 1], k)
  }

  function LayoutWord(e: Event, k: Id): Word<WindowLayout> {
    if e.WindowLayoutsChanged? then
      var layout := ChangedLayout(e.changes, k);
      if layout.Some? then Some(layout) else None
    else GivenWord(e, k, LayoutOf)
  }

  function LastingWord(e: Event, k: Id): Word<Window> {
    GivenWord(e, k, Lasting)
  }

  function Map<V, W>(o: Option<V>, f: V -> W): Option<W> {
    if o.Some? then Some(f(o.value)) else None
  }

  lemma {:induction false} ChangedLayoutIs(m: Windows, changes: seq<(Id, WindowLayout)>, k: Id)
    requires (forall i | 0 <= i < |changes| :: changes[i].0 in m) && k in m
    ensures WithLayouts(m, changes)[k] == m[k].(layout := ChangedLayout(changes, k).GetOr(m[k].layout))
  {
    if changes != [] {
      ChangedLayoutIs(m, changes[..|changes| - 1], k);
    }
  }

  function IsOpen(s: State, k: Id): Option<bool> { Some(k in s.windows) }

  /** What one event does to a window, property by property. */
  ghost predicate WindowFollows(s: State, e: Event, k: Id)
    requires Accepts(s, e)
  {
    var before, after := WindowAt(s, k), WindowAt(Apply(s, e), k);
    && Map(after, HasFocus) == FocusWord(e, k).GetOr(Map(before, HasFocus))
    && Map(after, HasUrgency) == UrgencyWord(e, k).GetOr(Map(before, HasUrgency))
    && Map(after, TimestampOf) == TimestampWord(e, k).GetOr(Map(before, TimestampOf))
    && Map(after, LayoutOf) == LayoutWord(e, k).GetOr(Map(before, LayoutOf))
    && Map(after, Lasting) == LastingWord(e, k).GetOr(Map(before, Lasting))
  }

  lemma WindowStep(s: State, e: Event, k: Id)
    requires Accepts(s, e) && k in Apply(s, e).windows
    ensures WindowFollows(s, e, k)
  {
    match e
    case WindowsChanged(windows) => IndexIsListed(WindowKey, windows, k);
    case WindowLayoutsChanged(changes) => ChangedLayoutIs(s.windows, changes, k);
    case WindowOpenedOrChanged(_) => OpeningStep(s, e, k);
    case _ => SmallWindowStep(s, e, k);
  }

  lemma OpeningStep(s: State, e: Event, k: Id)
    requires Accepts(s, e) && k in Apply(s, e).windows && e.WindowOpenedOrChanged?
    ensures WindowFollows(s, e, k)
  {
  }

  lemma SmallWindowStep(s: State, e: Event, k: Id)
    requires Accepts(s, e) && k in Apply(s, e).windows && !e.WindowsChanged? && !e.WindowLayoutsChanged?
      && !e.WindowOpenedOrChanged?
    ensures WindowFollows(s, e, k)
  {
  }

  lemma OpenStep(s: State, e: Event, k: Id)
    requires Accepts(s, e)
    ensures IsOpen(Apply(s, e), k) == IsOpenWord(e, k).GetOr(IsOpen(s, k))
  {
    if e.WindowsChanged? {
      IndexIsListed(WindowKey, e.windows, k);
    }
  }

  /** A window is open exactly if it was listed or opened, and not left out or closed since. */
  lemma OpenWindowsAreLastWords(s: State, events: seq<Event>, k: Id)
    requires AcceptsAll(s, events)
    ensures IsOpen(ApplyAll(s, events), k) == LastWord((e: Event) => IsOpenWord(e, k), events, IsOpen(s, k))
  {
    var part, word := (s: State) => IsOpen(s, k), (e: Event) => IsOpenWord(e, k);
    forall s, e | Accepts(s, e) ensures part(Apply(s, e)) == word(e).GetOr(part(s)) {
      OpenStep(s, e, k);
    }
    PartIsLastWord(part, word, s, events);
  }

  /** All that an open window has is what was said of it last. */
  lemma WindowIsLastWords(s: State, events: seq<Event>, k: Id)
    requires AcceptsAll(s, events) && k in ApplyAll(s, events).windows
    ensures var before, after := WindowAt(s, k), WindowAt(ApplyAll(s, events), k);
      && Map(after, HasFocus) == LastWord((e: Event) => FocusWord(e, k), events, Map(before, HasFocus))
      && Map(after, HasUrgency) == LastWord((e: Event) => UrgencyWord(e, k), events, Map(before, HasUrgency))
      && Map(after, TimestampOf) == LastWord((e: Event) => TimestampWord(e, k), events, Map(before, TimestampOf))
      && Map(after, LayoutOf) == LastWord((e: Event) => LayoutWord(e, k), events, Map(before, LayoutOf))
      && Map(after, Lasting) == LastWord((e: Event) => LastingWord(e, k), events, Map(before, Lasting))
  {
    forall s, e | Accepts(s, e) && k in Apply(s, e).windows
      ensures WindowFollows(s, e, k)
    {
      WindowStep(s, e, k);
    }
    PartIsLastWord((s: State) => Map(WindowAt(s, k), HasFocus), (e: Event) => FocusWord(e, k), s, events);
    PartIsLastWord((s: State) => Map(WindowAt(s, k), HasUrgency), (e: Event) => UrgencyWord(e, k), s, events);
    PartIsLastWord((s: State) => Map(WindowAt(s, k), TimestampOf), (e: Event) => TimestampWord(e, k), s, events);
    PartIsLastWord((s: State) => Map(WindowAt(s, k), LayoutOf), (e: Event) => LayoutWord(e, k), s, events);
    PartIsLastWord((s: State) => Map(WindowAt(s, k), Lasting), (e: Event) => LastingWord(e, k), s, events);
  }

  // ----- workspaces

  function WorkspaceAt(s: State, k: Id): Option<Workspace> {
    if k in s.workspaces then Some(s.workspaces[k]) else None
  }

  /** A workspace as far as only snapshots say anything about it. */
  function LastingOf(w: Workspace): Workspace {
    w.(isUrgent := false, isActive := false, isFocused := false, activeWindowId := None)
  }

  function IsUrgent(w: Workspace): bool { w.isUrgent }
  function IsActive(w: Workspace): bool { w.isActive }
  function IsFocused(w: Workspace): bool { w.isFocused }
  function ActiveWindow(w: Workspace): Option<Id> { w.activeWindowId }
  function OutputOf(w: Workspace): Option<string> { w.output }

  function SnapshotWord<V>(e: Event, k: Id, property: Workspace -> V): Word<V> {
    if e.WorkspacesChanged? then Some(Map(Listed(WorkspaceKey, e.workspaces, k), property)) else None
  }

  function WorkspaceUrgencyWord(e: Event, k: Id): Word<bool> {
    if e.WorkspaceUrgencyChanged? && e.id == k then Says(e.urgent) else SnapshotWord(e, k, IsUrgent)
  }

  function WorkspaceFocusWord(e: Event, k: Id): Word<bool> {
    if e.WorkspaceActivated? && e.focused then Says(e.id == k) else SnapshotWord(e, k, IsFocused)
  }

  function ActiveWindowWord(e: Event, k: Id): Word<Option<Id>> {
    if e.WorkspaceActiveWindowChanged? && e.workspaceId == k then Says(e.activeWindowId)
    else SnapshotWord(e, k, ActiveWindow)
  }

  ghost predicate WorkspaceFollows(s: State, e: Event, k: Id)
    requires Accepts(s, e)
  {
    var before, after := WorkspaceAt(s, k), WorkspaceAt(Apply(s, e), k);
    && Map(after, IsUrgent) == WorkspaceUrgencyWord(e, k).GetOr(Map(before, IsUrgent))
    && Map(after, IsFocused) == WorkspaceFocusWord(e, k).GetOr(Map(before, IsFocused))
    && Map(after, ActiveWindow) == ActiveWindowWord(e, k).GetOr(Map(before, ActiveWindow))
    && Map(after, LastingOf) == SnapshotWord(e, k, LastingOf).GetOr(Map(before, LastingOf))
  }

  lemma WorkspaceStep(s: State, e: Event, k: Id)
    requires Accepts(s, e) && k in Apply(s, e).workspaces
    ensures WorkspaceFollows(s, e, k)
  {
    if e.WorkspacesChanged? {
      IndexIsListed(WorkspaceKey, e.workspaces, k);
    }
  }

  lemma ListedWorkspacesStep(s: State, e: Event, k: Id)
    requires Accepts(s, e)
    ensures Some(k in Apply(s, e).workspaces) == ListedWord(e, k).GetOr(Some(k in s.workspaces))
  {
    if e.WorkspacesChanged? {
      IndexIsListed(WorkspaceKey, e.workspaces, k);
    }
  }

  function ListedWord(e: Event, k: Id): Word<bool> {
    if e.WorkspacesChanged? then Says(Listed(WorkspaceKey, e.workspaces, k).Some?) else None
  }

  lemma WorkspaceIsLastWords(s: State, events: seq<Event>, k: Id)
    requires AcceptsAll(s, events)
    ensures Some(k in ApplyAll(s, events).workspaces)
      == LastWord((e: Event) => ListedWord(e, k), events, Some(k in s.workspaces))
    ensures k in ApplyAll(s, events).workspaces ==>
      var before, after := WorkspaceAt(s, k), WorkspaceAt(ApplyAll(s, events), k);
      && Map(after, IsUrgent) == LastWord((e: Event) => WorkspaceUrgencyWord(e, k), events, Map(before, IsUrgent))
      && Map(after, IsFocused) == LastWord((e: Event) => WorkspaceFocusWord(e, k), events, Map(before, IsFocused))
      && Map(after, ActiveWindow) == LastWord((e: Event) => ActiveWindowWord(e, k), events, Map(before, ActiveWindow))
      && Map(after, LastingOf) == LastWord((e: Event) => SnapshotWord(e, k, LastingOf), events, Map(before, LastingOf))
  {
    forall s, e | Accepts(s, e)
      ensures Some(k in Apply(s, e).workspaces) == ListedWord(e, k).GetOr(Some(k in s.workspaces))
      ensures k in Apply(s, e).workspaces ==> WorkspaceFollows(s, e, k)
    {
      ListedWorkspacesStep(s, e, k);
      if k in Apply(s, e).workspaces {
        WorkspaceStep(s, e, k);
      }
    }
    PartIsLastWord((s: State) => Some(k in s.workspaces), (e: Event) => ListedWord(e, k), s, events);
    PartIsLastWord((s: State) => Map(WorkspaceAt(s, k), IsUrgent), (e: Event) => WorkspaceUrgencyWord(e, k), s, events);
    PartIsLastWord((s: State) => Map(WorkspaceAt(s, k), IsFocused), (e: Event) => WorkspaceFocusWord(e, k), s, events);
    PartIsLastWord((s: State) => Map(WorkspaceAt(s, k), ActiveWindow), (e: Event) => ActiveWindowWord(e, k), s, events);
    PartIsLastWord((s: State) => Map(WorkspaceAt(s, k), LastingOf), (e: Event) => SnapshotWord(e, k, LastingOf), s, events);
  }

  /** The output that the last snapshot gives a workspace. */
  function LastOutput(events: seq<Event>, k: Id): Option<Option<string>> {
    LastWord((e: Event) => SnapshotWord(e, k, OutputOf), events, None)
  }

  /** Active is the workspace that was last activated on its output, or marked so by a snapshot since. */
  function LastActive(events: seq<Event>, k: Id): Option<bool> {
    if events == [] then None
    else
      var n := |events| - 1;
      var e := events[n];
      if e.WorkspacesChanged? then Map(Listed(WorkspaceKey, e.workspaces, k), IsActive)
      else if e.WorkspaceActivated? && LastOutput(events[..n], e.id) == LastOutput(events[..n], k) then Some(e.id == k)
      else LastActive(events[..n], k)
  }

  lemma OutputIsLastOutput(events: seq<Event>, k: Id)
    requires AcceptsAll(Default, events) && k in ApplyAll(Default, events).workspaces
    ensures LastOutput(events, k) == Some(ApplyAll(Default, events).workspaces[k].output)
  {
    forall s, e | Accepts(s, e) && k in Apply(s, e).workspaces
      ensures Map(WorkspaceAt(Apply(s, e), k), OutputOf) == SnapshotWord(e, k, OutputOf).GetOr(Map(WorkspaceAt(s, k), OutputOf))
    {
      if e.WorkspacesChanged? {
        IndexIsListed(WorkspaceKey, e.workspaces, k);
      }
    }
    PartIsLastWord((s: State) => Map(WorkspaceAt(s, k), OutputOf), (e: Event) => SnapshotWord(e, k, OutputOf), Default, events);
  }

  lemma {:induction false} ActiveIsLastActive(events: seq<Event>, k: Id)
    requires AcceptsAll(Default, events) && k in ApplyAll(Default, events).workspaces
    ensures LastActive(events, k) == Some(ApplyAll(Default, events).workspaces[k].isActive)
    decreases |events|
  {
    var n := |events| - 1;
    var e := events[n];
    LastStep(Default, events);
    if e.WorkspacesChanged? {
      IndexIsListed(WorkspaceKey, e.workspaces, k);
    } else {
      ActiveIsLastActive(events[..n], k);
      if e.WorkspaceActivated? {
        OutputIsLastOutput(events[..n], k);
        OutputIsLastOutput(events[..n], e.id);
      }
    }
  }

  // ----- the other parts

  function LayoutsWord(e: Event): Word<seq<string>> {
    if e.KeyboardLayoutsChanged? then Says(e.keyboardLayouts.names) else None
  }

  function LayoutIndexWord(e: Event): Word<nat> {
    match e
    case KeyboardLayoutsChanged(layouts) => Says(layouts.currentIdx)
    case KeyboardLayoutSwitched(idx) => Says(idx)
    case _ => None
  }

  function CastWord(e: Event, k: Id): Word<Option<Cast>> {
    match e
    case CastsChanged(casts) => Says(Listed(CastKey, casts, k))
    case CastStartedOrChanged(cast) => if cast.streamId == k then Says(Some(cast)) else None
    case CastStopped(id) => if id == k then Says(None) else None
    case _ => None
  }

  function CastAt(s: State, k: Id): Option<Cast> {
    if k in s.casts then Some(s.casts[k]) else None
  }

  function OverviewWord(e: Event): Word<bool> {
    if e.OverviewOpenedOrClosed? then Says(e.isOpen) else None
  }

  function ConfigWord(e: Event): Word<bool> {
    if e.ConfigLoaded? then Says(e.failed) else None
  }

  lemma OthersAreLastWords(s: State, events: seq<Event>, k: Id)
    requires AcceptsAll(s, events)
    ensures var t := ApplyAll(s, events);
      && Some(CastAt(t, k)) == LastWord((e: Event) => CastWord(e, k), events, Some(CastAt(s, k)))
      && Some(t.overviewOpen) == LastWord(OverviewWord, events, Some(s.overviewOpen))
      && Some(t.configFailed) == LastWord(ConfigWord, events, Some(s.configFailed))
  {
    forall s, e | Accepts(s, e) ensures Some(CastAt(Apply(s, e), k)) == CastWord(e, k).GetOr(Some(CastAt(s, k))) {
      if e.CastsChanged? {
        IndexIsListed(CastKey, e.casts, k);
      }
    }
    PartIsLastWord((s: State) => Some(CastAt(s, k)), (e: Event) => CastWord(e, k), s, events);
    PartIsLastWord((s: State) => Some(s.overviewOpen), OverviewWord, s, events);
    PartIsLastWord((s: State) => Some(s.configFailed), ConfigWord, s, events);
  }

  function Names(k: KeyboardLayouts): seq<string> { k.names }
  function CurrentIdx(k: KeyboardLayouts): nat { k.currentIdx }

  lemma KeyboardIsLastWords(s: State, events: seq<Event>)
    requires AcceptsAll(s, events) && ApplyAll(s, events).keyboardLayouts.Some?
    ensures var before, after := s.keyboardLayouts, ApplyAll(s, events).keyboardLayouts;
      && Map(after, Names) == LastWord(LayoutsWord, events, Map(before, Names))
      && Map(after, CurrentIdx) == LastWord(LayoutIndexWord, events, Map(before, CurrentIdx))
  {
    PartIsLastWord((s: State) => Map(s.keyboardLayouts, Names), LayoutsWord, s, events);
    PartIsLastWord((s: State) => Map(s.keyboardLayouts, CurrentIdx), LayoutIndexWord, s, events);
  }

  // ----- which streams are accepted

  /** What the event is about was introduced by the events before, and not removed since. */
  ghost predicate RefersToKnown(before: seq<Event>, e: Event) {
    match e
    case WorkspaceActivated(id, _) => LastWord((e: Event) => ListedWord(e, id), before, Some(false)) == Some(true)
    case WorkspaceActiveWindowChanged(id, _) => LastWord((e: Event) => ListedWord(e, id), before, Some(false)) == Some(true)
    case WindowClosed(id) => LastWord((e: Event) => IsOpenWord(e, id), before, Some(false)) == Some(true)
    case WindowLayoutsChanged(changes) =>
      forall i | 0 <= i < |changes| :: LastWord((e: Event) => IsOpenWord(e, changes[i].0), before, Some(false)) == Some(true)
    case KeyboardLayoutSwitched(_) => exists i :: 0 <= i < |before| && before[i].KeyboardLayoutsChanged?
    case CastStopped(id) => LastWord((e: Event) => CastWord(e, id), before, Some(None)) != Some(None)
    case _ => true
  }

  /** A client accepts a stream exactly if every event is about something known at that point. */
  lemma {:induction false} AcceptedIff(events: seq<Event>)
    ensures AcceptsAll(Default, events) <==> forall i | 0 <= i < |events| :: RefersToKnown(events[..i], events[i])
    decreases |events|
  {
    if events != [] {
      var n := |events| - 1;
      var init := events[..n];
      AcceptedIff(init);
      assert forall i | 0 <= i < n :: init[i] == events[i] && init[..i] == events[..i];
      assert events == init + [events[n]];
      if AcceptsAll(Default, init) {
        AcceptedEventIff(init, events[n]);
        ApplyAllAppend(Default, init, [events[n]]);
        ApplyOne(ApplyAll(Default, init), events[n]);
      } else if AcceptsAll(Default, events) {
        AcceptsPrefix(Default, init, [events[n]]);
      }
    }
  }

  lemma AcceptedEventIff(before: seq<Event>, e: Event)
    requires AcceptsAll(Default, before)
    ensures Accepts(ApplyAll(Default, before), e) <==> RefersToKnown(before, e)
  {
    if e.ForWindows() {
      AcceptedWindowEventIff(before, e);
    } else {
      match e
      case WorkspaceActivated(id, _) => WorkspaceIsLastWords(Default, before, id);
      case WorkspaceActiveWindowChanged(id, _) => WorkspaceIsLastWords(Default, before, id);
      case KeyboardLayoutSwitched(_) => KeyboardIsSetIff(before);
      case CastStopped(id) => OthersAreLastWords(Default, before, id);
      case _ =>
    }
  }

  lemma AcceptedWindowEventIff(before: seq<Event>, e: Event)
    requires AcceptsAll(Default, before) && e.ForWindows()
    ensures Accepts(ApplyAll(Default, before), e) <==> RefersToKnown(before, e)
  {
    match e
    case WindowClosed(id) => OpenWindowsAreLastWords(Default, before, id);
    case WindowLayoutsChanged(changes) =>
      forall i | 0 <= i < |changes|
        ensures IsOpen(ApplyAll(Default, before), changes[i].0)
          == LastWord((e: Event) => IsOpenWord(e, changes[i].0), before, Some(false))
      {
        OpenWindowsAreLastWords(Default, before, changes[i].0);
      }
    case _ =>
  }

  lemma {:induction false} KeyboardIsSetIff(events: seq<Event>)
    requires AcceptsAll(Default, events)
    ensures ApplyAll(Default, events).keyboardLayouts.Some? <==>
      exists i :: 0 <= i < |events| && events[i].KeyboardLayoutsChanged?
    decreases |events|
  {
    if events != [] {
      var n := |events| - 1;
      LastStep(Default, events);
      KeyboardIsSetIff(events[..n]);
      assert forall i | 0 <= i < n :: events[..n][i] == events[i];
    }
  }
}

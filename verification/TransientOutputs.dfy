/**
  Transient output configuration: changes made while running, on top of the config file, and what
  becomes of them when the file is loaded again.
 */
module TransientOutputs {
  import opened LastWords
  import opened Options
  import opened OutputNames
  import opened OutputSections

  datatype OutputAction =
    | Off
    | On
    | SetMode(mode: Option<Mode>)
    | SetCustomMode(customMode: Mode)
    | SetModeline(modeline: Modeline)
    | SetScale(scale: Option<real>)
    | SetTransform(transform: Transform)
    | SetPosition(position: Option<Point>)
    | SetVrr(vrr: bool, onDemand: bool)

  function ApplyAction(s: Section, action: OutputAction): Section {
    match action
    case Off => s.(off := true)
    case On => s.(off := false)
    case SetMode(mode) => s.(mode := if mode.Some? then Some(mode.value.(custom := false)) else None, modeline := None)
    case SetCustomMode(mode) => s.(mode := Some(mode.(custom := true)), modeline := None)
    // The mode stays as a fallback.
    case SetModeline(modeline) => s.(modeline := Some(modeline))
    case SetScale(scale) => s.(scale := scale)
    case SetTransform(transform) => s.(transform := transform)
    case SetPosition(position) => s.(position := position)
    case SetVrr(vrr, onDemand) => s.(variableRefreshRate := if vrr then Some(Vrr(onDemand)) else None)
  }

  function ApplyActions(s: Section, actions: seq<OutputAction>): Section {
    if actions == [] then s else ApplyAction(ApplyActions(s, actions[..|actions| - 1]), actions[|actions| - 1])
  }

  function OffWord(action: OutputAction): Option<bool> {
    match action
    case Off => Some(true)
    case On => Some(false)
    case _ => None
  }

  /** The mode is custom exactly if it was set as such. */
  function ModeWord(action: OutputAction): Option<Option<Mode>> {
    match action
    case SetMode(None) => Some(None)
    case SetMode(Some(mode)) => Some(Some(Mode(false, mode.width, mode.height, mode.refresh)))
    case SetCustomMode(mode) => Some(Some(Mode(true, mode.width, mode.height, mode.refresh)))
    case _ => None
  }

  /** Setting a mode drops a modeline, but not the other way round. */
  function ModelineWord(action: OutputAction): Option<Option<Modeline>> {
    match action
    case SetModeline(modeline) => Some(Some(modeline))
    case SetMode(_) => Some(None)
    case SetCustomMode(_) => Some(None)
    case _ => None
  }

  function VrrWord(action: OutputAction): Option<Option<Vrr>> {
    match action
    case SetVrr(true, onDemand) => Some(Some(Vrr(onDemand)))
    case SetVrr(false, _) => Some(None)
    case _ => None
  }

  function ScaleWord(action: OutputAction): Option<Option<real>> {
    if action.SetScale? then Some(action.scale) else None
  }

  function TransformWord(action: OutputAction): Option<Transform> {
    if action.SetTransform? then Some(action.transform) else None
  }

  function PositionWord(action: OutputAction): Option<Option<Point>> {
    if action.SetPosition? then Some(action.position) else None
  }

  lemma ActionFollowsWords(s: Section, action: OutputAction)
    ensures ApplyAction(s, action) == Section(
      s.name,
      OffWord(action).GetOr(s.off),
      ScaleWord(action).GetOr(s.scale),
      TransformWord(action).GetOr(s.transform),
      PositionWord(action).GetOr(s.position),
      ModeWord(action).GetOr(s.mode),
      ModelineWord(action).GetOr(s.modeline),
      VrrWord(action).GetOr(s.variableRefreshRate),
      s.focusAtStartup)
  {
  }

  /** After any actions, each property of a section is as it was last set; the rest never changes. */
  lemma {:induction false} SectionIsLastWords(s: Section, actions: seq<OutputAction>)
    ensures ApplyActions(s, actions) == Section(
      s.name,
      LastWord(OffWord, actions, s.off),
      LastWord(ScaleWord, actions, s.scale),
      LastWord(TransformWord, actions, s.transform),
      LastWord(PositionWord, actions, s.position),
      LastWord(ModeWord, actions, s.mode),
      LastWord(ModelineWord, actions, s.modeline),
      LastWord(VrrWord, actions, s.variableRefreshRate),
      s.focusAtStartup)
  {
    if actions != [] {
      var n := |actions| - 1;
      SectionIsLastWords(s, actions[..n]);
      ActionFollowsWords(ApplyActions(s, actions[..n]), actions[n]);
    }
  }

  /** A fresh section has the name that was asked for, and is on; nothing else is set. */
  lemma FreshSectionIsUnset(name: Str, actions: seq<OutputAction>)
    ensures var r := ApplyActions(DefaultSection(name), actions);
      && r.name == name
      && !r.focusAtStartup
      && (r.off <==> LastWord(OffWord, actions, false))
      && r.transform == LastWord(TransformWord, actions, Normal)
      && r.position == LastWord(PositionWord, actions, None)
      && r.mode == LastWord(ModeWord, actions, None)
      && r.modeline == LastWord(ModelineWord, actions, None)
      && r.scale == LastWord(ScaleWord, actions, None)
      && r.variableRefreshRate == LastWord(VrrWord, actions, None)
  {
    SectionIsLastWords(DefaultSection(name), actions);
  }

  // ----- one change

  function FirstMatching(names: seq<OutputName>, target: Str): Option<OutputName> {
    if names == [] then None
    else if Matches(names[0], target) then Some(names[0])
    else FirstMatching(names[1..], target)
  }

  /** The output a user means by `name`: a connected one, a disconnected one, or just a connector. */
  function ResolveName(connected: seq<OutputName>, disconnected: seq<OutputName>, name: Str): OutputName {
    var c, d := FirstMatching(connected, name), FirstMatching(disconnected, name);
    if c.Some? then c.value else if d.Some? then d.value else OutputName(name, None, None, None)
  }

  datatype Change =
    | Modify(connected: seq<OutputName>, disconnected: seq<OutputName>, name: Str, action: OutputAction)
    | Replace(outputs: Outputs)
  {
    function Target(): OutputName
      requires Modify?
    {
      ResolveName(connected, disconnected, name)
    }
  }

  function ApplyChange(outputs: Outputs, change: Change): Outputs {
    match change
    case Replace(replacement) => replacement
    case Modify(_, _, name, action) =>
      var i := IndexOf(outputs, change.Target());
      if i < |outputs| then outputs[i := ApplyAction(outputs[i], action)]
      else outputs + [ApplyAction(DefaultSection(name), action)]
  }

  lemma {:induction false} FirstMatchingMatches(names: seq<OutputName>, target: Str)
    ensures FirstMatching(names, target).Some? ==> Matches(FirstMatching(names, target).value, target)
  {
    if names != [] {
      FirstMatchingMatches(names[1..], target);
    }
  }

  /** The resolved output is matched by what the user wrote, even as "make model serial". */
  lemma ResolvedNameMatches(connected: seq<OutputName>, disconnected: seq<OutputName>, name: Str)
    ensures Matches(ResolveName(connected, disconnected, name), name)
  {
    FirstMatchingMatches(connected, name);
    FirstMatchingMatches(disconnected, name);
    MatchesItsOwnNames(OutputName(name, None, None, None));
  }

  predicate IsFirstMatch(names: seq<OutputName>, i: nat, name: Str)
    requires i < |names|
  {
    Matches(names[i], name) && forall j | 0 <= j < i :: !Matches(names[j], name)
  }

  lemma {:induction false} FirstMatchingIs(names: seq<OutputName>, name: Str, i: nat)
    requires i < |names| && IsFirstMatch(names, i, name)
    ensures FirstMatching(names, name) == Some(names[i])
  {
    if i > 0 {
      FirstMatchingIs(names[1..], name, i - 1);
    }
  }

  lemma {:induction false} FirstMatchingMisses(names: seq<OutputName>, name: Str)
    requires forall i | 0 <= i < |names| :: !Matches(names[i], name)
    ensures FirstMatching(names, name) == None
  {
    if names != [] {
      FirstMatchingMisses(names[1..], name);
    }
  }

  /** Connected outputs come before disconnected ones, and what matches none is a connector. */
  lemma ResolvesInOrder(connected: seq<OutputName>, disconnected: seq<OutputName>, name: Str, i: nat)
    ensures i < |connected| && IsFirstMatch(connected, i, name) ==> ResolveName(connected, disconnected, name) == connected[i]
    ensures (forall j | 0 <= j < |connected| :: !Matches(connected[j], name)) ==>
      && (i < |disconnected| && IsFirstMatch(disconnected, i, name) ==>
            ResolveName(connected, disconnected, name) == disconnected[i])
      && ((forall j | 0 <= j < |disconnected| :: !Matches(disconnected[j], name)) ==>
            ResolveName(connected, disconnected, name) == OutputName(name, None, None, None))
  {
    if i < |connected| && IsFirstMatch(connected, i, name) {
      FirstMatchingIs(connected, name, i);
    }
    if forall j | 0 <= j < |connected| :: !Matches(connected[j], name) {
      FirstMatchingMisses(connected, name);
      if i < |disconnected| && IsFirstMatch(disconnected, i, name) {
        FirstMatchingIs(disconnected, name, i);
      }
      if forall j | 0 <= j < |disconnected| :: !Matches(disconnected[j], name) {
        FirstMatchingMisses(disconnected, name);
      }
    }
  }

  /** A section for the target is still one after any action; so is a fresh one. */
  lemma ActionKeepsTarget(change: Change, section: Section)
    requires change.Modify? && (IsFor(change.Target())(section) || section.name == change.name)
    ensures IsFor(change.Target())(ApplyAction(section, change.action))
  {
    ResolvedNameMatches(change.connected, change.disconnected, change.name);
    assert ApplyAction(section, change.action).name == section.name;
  }

  /**
    A change takes effect: afterwards the output's section is the one it had, or a default one
    with the name the user wrote, with the action applied; nothing else in the list changes.
   */
  lemma ChangeTakesEffect(outputs: Outputs, change: Change)
    requires change.Modify?
    ensures var after, target := ApplyChange(outputs, change), change.Target();
      var before := Find(outputs, target);
      && Find(after, target) ==
           Some(ApplyAction(if before.Some? then before.value else DefaultSection(change.name), change.action))
      && |after| == (if before.Some? then |outputs| else |outputs| + 1)
      && (forall j | 0 <= j < |outputs| && j != IndexOf(outputs, target) :: after[j] == outputs[j])
  {
    var isFor := IsFor(change.Target());
    FindIsIndexed(outputs, change.Target());
    FindIsIndexed(ApplyChange(outputs, change), change.Target());
    var i := IndexOf(outputs, change.Target());
    var section := if i < |outputs| then outputs[i] else DefaultSection(change.name);
    ActionKeepsTarget(change, section);
    FirstIndexAfterChange(isFor, outputs, ApplyAction(section, change.action));
  }

  /** An output that the changed section is not written for keeps the section it had. */
  lemma ChangeLeavesOthersAlone(outputs: Outputs, change: Change, other: OutputName)
    requires change.Modify?
    requires !Matches(other, if Find(outputs, change.Target()).Some? then Find(outputs, change.Target()).value.name else change.name)
    ensures Find(ApplyChange(outputs, change), other) == Find(outputs, other)
  {
    var i := IndexOf(outputs, change.Target());
    FindIsIndexed(outputs, change.Target());
    if i < |outputs| {
      FindAfterOtherChange(outputs, i, ApplyAction(outputs[i], change.action), other);
    } else {
      FindAfterOtherAppend(outputs, ApplyAction(DefaultSection(change.name), change.action), other);
    }
  }

  // ----- runs

  datatype Event =
    | Changed(change: Change)
    | Reloaded(file: Outputs)
    | ReloadFailed

  datatype State = State(outputs: Outputs, fileOutputs: Outputs)

  function Step(s: State, e: Event): State {
    match e
    case Changed(change) => s.(outputs := ApplyChange(s.outputs, change))
    case Reloaded(file) => if file != s.fileOutputs then State(file, file) else s
    case ReloadFailed => s
  }

  function Run(startup: Outputs, events: seq<Event>): State {
    if events == [] then State(startup, startup)
    else Step(Run(startup, events[..|events| - 1]), events[|events| - 1])
  }

  /** The outputs in the file as it was last loaded successfully. */
  function FileAfter(startup: Outputs, events: seq<Event>): Outputs {
    if events == [] then startup
    else
      var last := events[|events| - 1];
      if last.Reloaded? then last.file else FileAfter(startup, events[..|events| - 1])
  }

  function ChangesIn(events: seq<Event>): seq<Change> {
    if events == [] then []
    else
      var last := events[|events| - 1];
      ChangesIn(events[..|events| - 1]) + if last.Changed? then [last.change] else []
  }

  function ApplyChanges(outputs: Outputs, changes: seq<Change>): Outputs {
    if changes == [] then outputs
    else ApplyChange(ApplyChanges(outputs, changes[..|changes| - 1]), changes[|changes| - 1])
  }

  /** The `i`-th event loaded a file whose outputs differ from the ones loaded before. */
  predicate ChangesFile(startup: Outputs, events: seq<Event>, i: nat)
    requires i < |events|
  {
    events[i].Reloaded? && events[i].file != FileAfter(startup, events[..i])
  }

  lemma {:induction false} RunTracksFile(startup: Outputs, events: seq<Event>)
    ensures Run(startup, events).fileOutputs == FileAfter(startup, events)
  {
    if events != [] {
      RunTracksFile(startup, events[..|events| - 1]);
    }
  }

  function ChangeOf(e: Event): seq<Change> {
    if e.Changed? then [e.change] else []
  }

  lemma StepAddsChange(s: State, e: Event, base: Outputs, changes: seq<Change>)
    requires s.outputs == ApplyChanges(base, changes) && (e.Reloaded? ==> e.file == s.fileOutputs)
    ensures Step(s, e).outputs == ApplyChanges(base, changes + ChangeOf(e)) && Step(s, e).fileOutputs == s.fileOutputs
  {
    if e.Changed? {
      assert (changes + [e.change])[..|changes|] == changes;
    } else {
      assert changes + ChangeOf(e) == changes;
    }
  }

  lemma ChangesInLast(events: seq<Event>, k: nat)
    requires k < |events|
    ensures var n := |events| - 1;
      ChangesIn(events[k..]) == ChangesIn(events[..n][k..]) + ChangeOf(events[n])
  {
    assert events[k..][..|events| - 1 - k] == events[..|events| - 1][k..];
  }

  /** As long as the file does not change, changes add up on what there was. */
  lemma {:induction false} ChangesAddUp(startup: Outputs, events: seq<Event>, k: nat)
    requires k <= |events|
    requires forall i | k <= i < |events| :: !ChangesFile(startup, events, i)
    ensures Run(startup, events).outputs == ApplyChanges(Run(startup, events[..k]).outputs, ChangesIn(events[k..]))
    ensures Run(startup, events).fileOutputs == Run(startup, events[..k]).fileOutputs
    decreases |events|
  {
    if k == |events| {
      assert events[..k] == events && events[k..] == [];
    } else {
      var n := |events| - 1;
      var init := events[..n];
      forall j | k <= j < n ensures !ChangesFile(startup, init, j) {
        assert init[..j] == events[..j] && !ChangesFile(startup, events, j);
      }
      ChangesAddUp(startup, init, k);
      assert init[..k] == events[..k];
      assert !ChangesFile(startup, events, n);
      RunTracksFile(startup, init);
      ChangesInLast(events, k);
      StepAddsChange(Run(startup, init), events[n], Run(startup, events[..k]).outputs, ChangesIn(init[k..]));
    }
  }

  /**
    If the outputs in the file last changed just before event `k` (or never, and `k` is 0), the
    effective outputs are those in the file with exactly the changes since then, in order. Loading
    an unchanged file, or failing to load one, drops none of them.
   */
  lemma EffectiveOutputs(startup: Outputs, events: seq<Event>, k: nat)
    requires k <= |events|
    requires k == 0 || ChangesFile(startup, events, k - 1)
    requires forall i | k <= i < |events| :: !ChangesFile(startup, events, i)
    ensures Run(startup, events).outputs == ApplyChanges(FileAfter(startup, events), ChangesIn(events[k..]))
  {
    var before := events[..k];
    ChangesAddUp(startup, events, k);
    RunTracksFile(startup, events);
    if k > 0 {
      assert before[..k - 1] == events[..k - 1];
      RunTracksFile(startup, before[..k - 1]);
    }
  }

  /** Outputs that were replaced as a whole forget all that was changed before. */
  lemma ReplacedOutputs(startup: Outputs, events: seq<Event>, k: nat, replacement: Outputs)
    requires k < |events| && events[k] == Changed(Replace(replacement))
    requires forall i | k < i < |events| :: !ChangesFile(startup, events, i)
    ensures Run(startup, events).outputs == ApplyChanges(replacement, ChangesIn(events[k + 1..]))
  {
    ChangesAddUp(startup, events, k + 1);
    assert events[..k + 1][k] == events[k];
  }

  // ----- the running configuration

  class OutputConfig {
    /** The effective outputs. */
    var outputs: Outputs
    /** The outputs in the file, as last loaded. */
    var fileOutputs: Outputs

    constructor (file: Outputs)
      ensures outputs == file && fileOutputs == file
    {
      outputs, fileOutputs := file, file;
    }

    ghost function Contents(): State
      reads this
    {
      State(outputs, fileOutputs)
    }

    method FindIndex(name: OutputName) returns (i: nat)
      ensures i == IndexOf(outputs, name)
    {
      i := 0;
      while i < |outputs| && !Matches(name, outputs[i].name)
        invariant i <= |outputs|
        invariant forall j | 0 <= j < i :: !IsFor(name)(outputs[j])
      {
        i := i + 1;
      }
      FirstIndexIs(IsFor(name), outputs, i);
    }

    method ModifyOutputConfig(connected: seq<OutputName>, disconnected: seq<OutputName>, name: Str, action: OutputAction)
      modifies `outputs
      ensures Contents() == Step(old(Contents()), Changed(Modify(connected, disconnected, name, action)))
    {
      var matchName := ResolveName(connected, disconnected, name);
      var i := FindIndex(matchName);
      if i == |outputs| {
        outputs := outputs + [DefaultSection(name)];
      }
      outputs := outputs[i := ApplyAction(outputs[i], action)];
    }

    method ApplyOutputConfig(replacement: Outputs)
      modifies `outputs
      ensures Contents() == Step(old(Contents()), Changed(Replace(replacement)))
    {
      outputs := replacement;
    }

    /** The new config replaces the old one, unless its outputs are those that were loaded last. */
    method ReloadConfig(loaded: Option<Outputs>)
      modifies this
      ensures Contents() == Step(old(Contents()), if loaded.Some? then Reloaded(loaded.value) else ReloadFailed)
    {
      if loaded.None? {
        return;
      }
      var preserved := None;
      if loaded.value != fileOutputs {
        fileOutputs := loaded.value;
      } else {
        preserved := Some(outputs);
        outputs := [];
      }
      outputs := loaded.value;
      if preserved.Some? {
        outputs := preserved.value;
      }
    }
  }
}

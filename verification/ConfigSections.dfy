/**
  Merging config sections, in the order in which the files and their includes bring them.
 */
module ConfigSections {
  import opened Options
  import opened ConfigBinds
  import opened LastWords
  import opened RuleMerging

  /** The properties a section sets, and how they add up: each one replaces the value it had. */
  type Settings = map<string, int>

  datatype ListKind =
    | Outputs | SpawnAtStartup | SpawnShAtStartup | WindowRules | LayerRules | Workspaces
    | EnvironmentVariables | IgnoredDrmDevices

  datatype Section =
    | Merged(name: string, part: Settings)
    | Debug(part: Settings, ignoredDrmDevices: seq<nat>)
    | Listed(list: ListKind, item: nat)
    | Binds(children: seq<BindNode>)
    | Environment(variables: seq<nat>)
    | Layout(border: Option<BorderRule>, part: Settings)
    | RecentWindows(part: Settings, binds: Option<seq<BindNode>>)

  datatype Config = Config(
    settings: map<string, Settings>,
    lists: map<ListKind, seq<nat>>,
    border: BorderValue,
    binds: seq<Bind>,
    recentBinds: seq<Bind>)

  /** The config being loaded, and whether a section with window-switcher binds was seen. */
  datatype Loading = Loading(config: Config, sawMruBinds: bool)

  /** A section with the include depth of the file it stands in. */
  datatype Tagged = Tagged(depth: nat, section: Section)

  function SettingsOf(settings: map<string, Settings>, name: string): Settings {
    if name in settings then settings[name] else map[]
  }

  function ListOf(config: Config, kind: ListKind): seq<nat> {
    if kind in config.lists then config.lists[kind] else []
  }

  function WithProperties(config: Config, name: string, part: Settings): map<string, Settings> {
    config.settings[name := SettingsOf(config.settings, name) + part]
  }

  function WithItems(config: Config, kind: ListKind, items: seq<nat>): map<ListKind, seq<nat>> {
    config.lists[kind := ListOf(config, kind) + items]
  }

  /** In the main file an empty border section switches the border on. */
  function BorderPart(depth: nat, border: BorderRule): BorderRule {
    if depth == 0 && !border.on && !border.off then border.(on := true) else border
  }

  function MergeSection(st: Loading, tagged: Tagged): Loading {
    var c := st.config;
    match tagged.section
    case Merged(name, part) => st.(config := c.(settings := WithProperties(c, name, part)))
    case Debug(part, ignored) =>
      st.(config := c.(
        settings := WithProperties(c, "debug", part),
        lists := WithItems(c, IgnoredDrmDevices, ignored)))
    case Listed(list, item) => st.(config := c.(lists := WithItems(c, list, [item])))
    case Binds(children) => st.(config := c.(binds := Override(c.binds, FirstBinds(children))))
    case Environment(variables) => st.(config := c.(lists := WithItems(c, EnvironmentVariables, variables)))
    case Layout(border, part) =>
      st.(config := c.(
        border := if border.Some? then ApplyBorder(c.border, BorderPart(tagged.depth, border.value)) else c.border,
        settings := WithProperties(c, "layout", part)))
    case RecentWindows(part, binds) =>
      var before := if binds.Some? && !st.sawMruBinds then [] else c.recentBinds;
      Loading(
        c.(settings := WithProperties(c, "recent-windows", part),
           recentBinds := if binds.Some? then Override(before, FirstBinds(binds.value)) else before),
        st.sawMruBinds || binds.Some?)
  }

  function Fold(st: Loading, flat: seq<Tagged>): Loading
    decreases |flat|
  {
    if flat == [] then st else Fold(MergeSection(st, flat[0]), flat[1..])
  }

  lemma {:induction false} FoldAppend(st: Loading, a: seq<Tagged>, b: seq<Tagged>)
    ensures Fold(st, a + b) == Fold(Fold(st, a), b)
    decreases |a|
  {
    if a == [] {
      assert a + b == b;
    } else {
      assert (a + b)[1..] == a[1..] + b;
      FoldAppend(MergeSection(st, a[0]), a[1..], b);
    }
  }

  lemma FoldLast(st: Loading, flat: seq<Tagged>)
    requires flat != []
    ensures Fold(st, flat) == MergeSection(Fold(st, flat[..|flat| - 1]), flat[|flat| - 1])
  {
    var n := |flat| - 1;
    FoldAppend(st, flat[..n], [flat[n]]);
    assert flat[..n] + [flat[n]] == flat;
    assert [flat[n]][1..] == [];
  }

  // ----- what the fold means

  /** What a section adds to a list. */
  function AddedItems(section: Section, kind: ListKind): seq<nat> {
    match section
    case Listed(list, item) => if list == kind then [item] else []
    case Environment(variables) => if kind.EnvironmentVariables? then variables else []
    case Debug(_, ignored) => if kind.IgnoredDrmDevices? then ignored else []
    case _ => []
  }

  /** The items of a list in the order in which they were read. */
  function ItemsOf(flat: seq<Tagged>, kind: ListKind): seq<nat> {
    if flat == [] then []
    else ItemsOf(flat[..|flat| - 1], kind) + AddedItems(flat[|flat| - 1].section, kind)
  }

  lemma {:induction false} ListsAreInOrder(st: Loading, flat: seq<Tagged>, kind: ListKind)
    ensures ListOf(Fold(st, flat).config, kind) == ListOf(st.config, kind) + ItemsOf(flat, kind)
  {
    if flat != [] {
      FoldLast(st, flat);
      ListsAreInOrder(st, flat[..|flat| - 1], kind);
      StepAppendsItem(Fold(st, flat[..|flat| - 1]), flat[|flat| - 1], kind);
    }
  }

  lemma StepAppendsItem(st: Loading, tagged: Tagged, kind: ListKind)
    ensures ListOf(MergeSection(st, tagged).config, kind) == ListOf(st.config, kind) + AddedItems(tagged.section, kind)
  {
    StepExtendsLists(st, tagged);
  }

  lemma StepExtendsLists(st: Loading, tagged: Tagged)
    ensures var s, c := tagged.section, st.config;
      MergeSection(st, tagged).config.lists ==
        match s
        case Listed(list, item) => WithItems(c, list, [item])
        case Environment(variables) => WithItems(c, EnvironmentVariables, variables)
        case Debug(_, ignored) => WithItems(c, IgnoredDrmDevices, ignored)
        case _ => c.lists
  {
  }

  /** What a section sets of the properties kept under a name. */
  function SetProperties(section: Section, name: string): Settings {
    match section
    case Merged(n, part) => if n == name then part else map[]
    case Debug(part, _) => if name == "debug" then part else map[]
    case Layout(_, part) => if name == "layout" then part else map[]
    case RecentWindows(part, _) => if name == "recent-windows" then part else map[]
    case _ => map[]
  }

  /** The last section with this name that sets this property decides its value. */
  function LastValue(flat: seq<Tagged>, name: string, property: string): Option<int> {
    if flat == [] then None
    else
      var part := SetProperties(flat[|flat| - 1].section, name);
      if property in part then Some(part[property]) else LastValue(flat[..|flat| - 1], name, property)
  }

  lemma {:induction false} LastValueWins(st: Loading, flat: seq<Tagged>, name: string, property: string)
    ensures var before, after := SettingsOf(st.config.settings, name), SettingsOf(Fold(st, flat).config.settings, name);
      var value := LastValue(flat, name, property);
      if value.Some? then property in after && after[property] == value.value
      else (property in after <==> property in before) && (property in before ==> after[property] == before[property])
  {
    if flat != [] {
      FoldLast(st, flat);
      LastValueWins(st, flat[..|flat| - 1], name, property);
      StepSetsProperties(Fold(st, flat[..|flat| - 1]), flat[|flat| - 1], name);
    }
  }

  lemma StepSetsProperties(st: Loading, tagged: Tagged, name: string)
    ensures SettingsOf(MergeSection(st, tagged).config.settings, name) ==
      SettingsOf(st.config.settings, name) + SetProperties(tagged.section, name)
  {
    StepMergesSettings(st, tagged);
  }

  lemma StepMergesSettings(st: Loading, tagged: Tagged)
    ensures MergeSection(st, tagged).config.settings ==
      match tagged.section
      case Merged(name, part) => WithProperties(st.config, name, part)
      case Debug(part, _) => WithProperties(st.config, "debug", part)
      case Layout(_, part) => WithProperties(st.config, "layout", part)
      case RecentWindows(part, _) => WithProperties(st.config, "recent-windows", part)
      case _ => st.config.settings
  {
  }

  // ----- the border

  /** The border rules of all layout sections, in order. */
  function BorderRules(flat: seq<Tagged>): seq<BorderRule> {
    if flat == [] then []
    else
      var last := flat[|flat| - 1].section;
      BorderRules(flat[..|flat| - 1]) + if last.Layout? && last.border.Some? then [last.border.value] else []
  }

  /** Mentioning the border in the main file switches it on, unless it says `off`. */
  function BorderSwitchWord(tagged: Tagged): Option<bool> {
    if !tagged.section.Layout? || tagged.section.border.None? then None
    else
      var rule := tagged.section.border.value;
      if rule.on then Some(true)
      else if rule.off then Some(false)
      else if tagged.depth == 0 then Some(true)
      else None
  }

  /** The border is on if the last section that decides it says so; the rest of it follows the rules. */
  lemma {:induction false} BorderFollowsRules(st: Loading, flat: seq<Tagged>)
    ensures var border := Fold(st, flat).config.border;
      && !border.off == LastWord(BorderSwitchWord, flat, !st.config.border.off)
      && border == ApplyBorders(st.config.border, BorderRules(flat)).(off := border.off)
  {
    if flat != [] {
      var n := |flat| - 1;
      FoldLast(st, flat);
      BorderFollowsRules(st, flat[..n]);
      StepAppliesBorder(Fold(st, flat[..n]), flat[n]);
      var section, before := flat[n].section, BorderRules(flat[..n]);
      if section.Layout? && section.border.Some? {
        assert (before + [section.border.value])[..|before|] == before;
      } else {
        assert BorderRules(flat) == before;
      }
    }
  }

  lemma StepAppliesBorder(st: Loading, tagged: Tagged)
    ensures var section, before, after := tagged.section, st.config.border, MergeSection(st, tagged).config.border;
      && !after.off == BorderSwitchWord(tagged).GetOr(!before.off)
      && after ==
           (if section.Layout? && section.border.Some? then ApplyBorder(before, section.border.value) else before).(off := after.off)
  {
  }

  // ----- binds

  function BindSections(flat: seq<Tagged>): seq<seq<Bind>> {
    if flat == [] then []
    else
      var last := flat[|flat| - 1].section;
      BindSections(flat[..|flat| - 1]) + if last.Binds? then [FirstBinds(last.children)] else []
  }

  function MruSections(flat: seq<Tagged>): seq<seq<Bind>> {
    if flat == [] then []
    else
      var last := flat[|flat| - 1].section;
      MruSections(flat[..|flat| - 1])
      + if last.RecentWindows? && last.binds.Some? then [FirstBinds(last.binds.value)] else []
  }

  /** Binds across all files: of every section, what no later section defines again. */
  lemma {:induction false} BindsAreSurvivors(st: Loading, flat: seq<Tagged>)
    requires st.config.binds == []
    ensures Fold(st, flat).config.binds == Survivors(BindSections(flat))
  {
    if flat != [] {
      var init, last := flat[..|flat| - 1], flat[|flat| - 1].section;
      FoldLast(st, flat);
      BindsAreSurvivors(st, init);
      StepOverridesBinds(Fold(st, init), flat[|flat| - 1]);
      if last.Binds? {
        OverrideSurvivors(BindSections(init), FirstBinds(last.children));
      } else {
        assert BindSections(flat) == BindSections(init);
      }
    }
  }

  lemma StepOverridesBinds(st: Loading, tagged: Tagged)
    ensures var s := tagged.section;
      MergeSection(st, tagged).config.binds ==
        if s.Binds? then Override(st.config.binds, FirstBinds(s.children)) else st.config.binds
  {
  }

  /** The default window-switcher binds are dropped exactly when some section has binds for it. */
  lemma {:induction false} MruBindsReplaceDefaults(st: Loading, flat: seq<Tagged>)
    requires !st.sawMruBinds
    ensures Fold(st, flat).sawMruBinds <==> MruSections(flat) != []
    ensures Fold(st, flat).config.recentBinds ==
      if MruSections(flat) == [] then st.config.recentBinds else Survivors(MruSections(flat))
  {
    if flat != [] {
      var init, last := flat[..|flat| - 1], flat[|flat| - 1].section;
      FoldLast(st, flat);
      MruBindsReplaceDefaults(st, init);
      StepOverridesMruBinds(Fold(st, init), flat[|flat| - 1]);
      if last.RecentWindows? && last.binds.Some? {
        OverrideSurvivors(MruSections(init), FirstBinds(last.binds.value));
      } else {
        assert MruSections(flat) == MruSections(init);
      }
    }
  }

  lemma StepOverridesMruBinds(st: Loading, tagged: Tagged)
    ensures var s, after := tagged.section, MergeSection(st, tagged);
      if s.RecentWindows? && s.binds.Some? then
        after.sawMruBinds
        && after.config.recentBinds == Override(if st.sawMruBinds then st.config.recentBinds else [], FirstBinds(s.binds.value))
      else
        after.sawMruBinds == st.sawMruBinds && after.config.recentBinds == st.config.recentBinds
  {
  }

  lemma {:induction false} SectionsHaveUniqueKeys(flat: seq<Tagged>)
    ensures forall i | 0 <= i < |BindSections(flat)| :: UniqueKeys(BindSections(flat)[i])
    ensures forall i | 0 <= i < |MruSections(flat)| :: UniqueKeys(MruSections(flat)[i])
  {
    if flat != [] {
      var last := flat[|flat| - 1].section;
      SectionsHaveUniqueKeys(flat[..|flat| - 1]);
      if last.Binds? {
        FirstBindsAreUnique(last.children);
      } else if last.RecentWindows? && last.binds.Some? {
        FirstBindsAreUnique(last.binds.value);
      }
    }
  }

  /** In the loaded config every key has one bind, the one from the last section that defines it. */
  lemma LoadedBindsAreLastDefinitions(st: Loading, flat: seq<Tagged>)
    requires st.config.binds == []
    ensures var binds := Fold(st, flat).config.binds;
      && UniqueKeys(binds)
      && binds == LastOfEachKey(Concat(BindSections(flat)))
      && (forall b :: b in binds <==> IsLastDefinition(BindSections(flat), b))
      && (forall key :: HasKey(binds, key) <==> Defines(BindSections(flat), key))
  {
    BindsAreSurvivors(st, flat);
    SectionsHaveUniqueKeys(flat);
    SurvivorsAreLastDefinitions(BindSections(flat));
    SurvivorsAreLastOfEachKey(BindSections(flat));
  }

  /**
    Moving a section into an included file changes what it does exactly for a layout section whose
    border neither switches on nor off, while the border is off.
   */
  lemma DepthMattersIff(st: Loading, section: Section, depth: nat)
    requires depth > 0
    ensures MergeSection(st, Tagged(depth, section)) != MergeSection(st, Tagged(0, section)) <==>
      section.Layout? && section.border.Some? && !section.border.value.on && !section.border.value.off && st.config.border.off
  {
  }
}

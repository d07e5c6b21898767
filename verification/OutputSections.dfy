/** The output sections of a configuration, and which of them is for an output. */
module OutputSections {
  import opened Options
  import opened OutputNames

  datatype Point = Point(x: int, y: int)
  datatype Mode = Mode(custom: bool, width: nat, height: nat, refresh: Option<real>)
  datatype Modeline = Modeline(clock: real, timings: seq<nat>, hsyncPositive: bool, vsyncPositive: bool)
  datatype Vrr = Vrr(onDemand: bool)
  datatype Transform = Normal | Rotated90 | Rotated180 | Rotated270 | Flipped | Flipped90 | Flipped180 | Flipped270

  datatype Section = Section(
    name: Str,
    off: bool,
    scale: Option<real>,
    transform: Transform,
    position: Option<Point>,
    mode: Option<Mode>,
    modeline: Option<Modeline>,
    variableRefreshRate: Option<Vrr>,
    focusAtStartup: bool)

  type Outputs = seq<Section>

  function DefaultSection(name: Str): Section {
    Section(name, false, None, Normal, None, None, None, None, false)
  }

  /** The first section written for an output. */
  function Find(outputs: Outputs, name: OutputName): Option<Section> {
    if outputs == [] then None
    else if Matches(name, outputs[0].name) then Some(outputs[0])
    else Find(outputs[1..], name)
  }

  /** The index of the first element with `p`, or the length if there is none. */
  function FirstIndex<T>(p: T -> bool, s: seq<T>): (i: nat)
    ensures i <= |s|
    ensures i < |s| ==> p(s[i])
    ensures forall j | 0 <= j < i :: !p(s[j])
  {
    if s == [] || p(s[0]) then 0 else 1 + FirstIndex(p, s[1..])
  }

  /** The sections written for an output. */
  function IsFor(name: OutputName): Section -> bool {
    (s: Section) => Matches(name, s.name)
  }

  function IndexOf(outputs: Outputs, name: OutputName): (i: nat)
    ensures i <= |outputs|
  {
    FirstIndex(IsFor(name), outputs)
  }

  lemma FirstIndexIs<T>(p: T -> bool, s: seq<T>, i: nat)
    requires i <= |s| && (i < |s| ==> p(s[i])) && forall j | 0 <= j < i :: !p(s[j])
    ensures FirstIndex(p, s) == i
  {
  }

  /** Changing the first element with `p` to another one with `p`, or appending one. */
  lemma FirstIndexAfterChange<T>(p: T -> bool, s: seq<T>, v: T)
    requires p(v)
    ensures var i := FirstIndex(p, s);
      if i < |s| then FirstIndex(p, s[i := v]) == i else FirstIndex(p, s + [v]) == |s|
  {
    var i := FirstIndex(p, s);
    if i < |s| {
      FirstIndexIs(p, s[i := v], i);
    } else {
      FirstIndexIs(p, s + [v], i);
    }
  }

  /** Looking a section up to modify it finds the same one. */
  lemma {:induction false} FindIsIndexed(outputs: Outputs, name: OutputName)
    ensures var i := IndexOf(outputs, name);
      Find(outputs, name) == if i < |outputs| then Some(outputs[i]) else None
  {
    if outputs != [] && !IsFor(name)(outputs[0]) {
      FindIsIndexed(outputs[1..], name);
    }
  }

  /** An output that a section is not written for, before and after, is not affected by it. */
  lemma {:induction false} FindAfterOtherChange(outputs: Outputs, i: nat, section: Section, other: OutputName)
    requires i < |outputs| && !Matches(other, outputs[i].name) && !Matches(other, section.name)
    ensures Find(outputs[i := section], other) == Find(outputs, other)
  {
    if i == 0 {
      assert outputs[0 := section][1..] == outputs[1..];
    } else {
      assert outputs[i := section][1..] == outputs[1..][i - 1 := section];
      FindAfterOtherChange(outputs[1..], i - 1, section, other);
    }
  }

  lemma {:induction false} FindAfterOtherAppend(outputs: Outputs, section: Section, other: OutputName)
    requires !Matches(other, section.name)
    ensures Find(outputs + [section], other) == Find(outputs, other)
  {
    if outputs == [] {
      assert (outputs + [section])[1..] == [];
    } else {
      assert (outputs + [section])[1..] == outputs[1..] + [section];
      FindAfterOtherAppend(outputs[1..], section, other);
    }
  }
}

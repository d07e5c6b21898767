/**
  Merging appearance rules.

  A rule can be applied to a setting, and rules can be merged into one rule first. The lemmas say
  when that makes no difference: always for borders, and for shadows unless the last rule that
  switches the shadow says both `on` and `off`.
 */
module RuleMerging {
  import opened LastWords
  import opened Options

  datatype Color = Color(r: real, g: real, b: real, a: real)
  datatype Gradient = Gradient(from: Color, to: Color, angle: int, relativeToWorkspace: bool, interpolation: nat)

  /** A color and the gradient that, if set, is drawn instead. */
  datatype Paint = Paint(color: Color, gradient: Option<Gradient>)
  datatype PaintRule = PaintRule(color: Option<Color>, gradient: Option<Gradient>)

  datatype BorderValue = BorderValue(off: bool, width: real, active: Paint, inactive: Paint, urgent: Paint)
  datatype BorderRule = BorderRule(
    off: bool, on: bool, width: Option<real>, active: PaintRule, inactive: PaintRule, urgent: PaintRule)

  datatype ShadowValue = ShadowValue(
    on: bool,
    offset: (real, real),
    softness: real,
    spread: real,
    drawBehindWindow: bool,
    color: Color,
    inactiveColor: Option<Color>)
  datatype ShadowRule = ShadowRule(
    off: bool,
    on: bool,
    offset: Option<(real, real)>,
    softness: Option<real>,
    spread: Option<real>,
    drawBehindWindow: Option<bool>,
    color: Option<Color>,
    inactiveColor: Option<Color>)

  datatype TabIndicatorRule = TabIndicatorRule(active: PaintRule, inactive: PaintRule, urgent: PaintRule)

  const NoPaintRule := PaintRule(None, None)
  const NoBorderRule := BorderRule(false, false, None, NoPaintRule, NoPaintRule, NoPaintRule)
  const NoShadowRule := ShadowRule(false, false, None, None, None, None, None, None)
  const NoTabIndicatorRule := TabIndicatorRule(NoPaintRule, NoPaintRule, NoPaintRule)

  function OrElse<T>(o: Option<T>, other: Option<T>): Option<T> {
    if o.Some? then o else other
  }

  // ----- paint: a new color clears the gradient, a new gradient does not clear the color

  function ApplyPaint(p: Paint, rule: PaintRule): Paint {
    Paint(rule.color.GetOr(p.color), if rule.gradient.Some? then rule.gradient else if rule.color.Some? then None else p.gradient)
  }

  function MergePaint(a: PaintRule, b: PaintRule): PaintRule {
    PaintRule(OrElse(b.color, a.color), if b.gradient.Some? then b.gradient else if b.color.Some? then None else a.gradient)
  }

  lemma MergingPaintIsApplying(p: Paint, a: PaintRule, b: PaintRule)
    ensures ApplyPaint(p, MergePaint(a, b)) == ApplyPaint(ApplyPaint(p, a), b)
  {
  }

  // ----- borders

  function ApplyBorder(v: BorderValue, rule: BorderRule): BorderValue {
    BorderValue(
      !rule.on && (v.off || rule.off),
      rule.width.GetOr(v.width),
      ApplyPaint(v.active, rule.active),
      ApplyPaint(v.inactive, rule.inactive),
      ApplyPaint(v.urgent, rule.urgent))
  }

  function MergeBorder(a: BorderRule, b: BorderRule): BorderRule {
    BorderRule(
      if b.on then false else if b.off then true else a.off,
      if b.on then true else if b.off then false else a.on,
      OrElse(b.width, a.width),
      MergePaint(a.active, b.active),
      MergePaint(a.inactive, b.inactive),
      MergePaint(a.urgent, b.urgent))
  }

  function ApplyBorders(v: BorderValue, rules: seq<BorderRule>): BorderValue {
    if rules == [] then v else ApplyBorder(ApplyBorders(v, rules[..|rules| - 1]), rules[|rules| - 1])
  }

  function MergeBorders(rules: seq<BorderRule>): BorderRule {
    if rules == [] then NoBorderRule else MergeBorder(MergeBorders(rules[..|rules| - 1]), rules[|rules| - 1])
  }

  lemma MergingBordersIsApplying(v: BorderValue, a: BorderRule, b: BorderRule)
    ensures ApplyBorder(v, MergeBorder(a, b)) == ApplyBorder(ApplyBorder(v, a), b)
  {
  }

  /** Applying any list of rules one by one is applying their merged rule. */
  lemma {:induction false} MergedBordersApplyAlike(v: BorderValue, rules: seq<BorderRule>)
    ensures ApplyBorder(v, MergeBorders(rules)) == ApplyBorders(v, rules)
  {
    if rules != [] {
      var init, last := rules[..|rules| - 1], rules[|rules| - 1];
      MergedBordersApplyAlike(v, init);
      MergingBordersIsApplying(v, MergeBorders(init), last);
    }
  }

  /** Merging is associative; merging into the empty rule changes only a rule that is both on and off. */
  lemma BorderRulesAreMonoid(a: BorderRule, b: BorderRule, c: BorderRule)
    ensures MergeBorder(MergeBorder(a, b), c) == MergeBorder(a, MergeBorder(b, c))
    ensures MergeBorder(a, NoBorderRule) == a
    ensures MergeBorder(NoBorderRule, a) == a <==> !(a.on && a.off)
  {
  }

  // ----- shadows

  function ApplyShadow(v: ShadowValue, rule: ShadowRule): ShadowValue {
    ShadowValue(
      !rule.off && (v.on || rule.on),
      rule.offset.GetOr(v.offset),
      rule.softness.GetOr(v.softness),
      rule.spread.GetOr(v.spread),
      rule.drawBehindWindow.GetOr(v.drawBehindWindow),
      rule.color.GetOr(v.color),
      OrElse(rule.inactiveColor, v.inactiveColor))
  }

  function MergeShadow(a: ShadowRule, b: ShadowRule): ShadowRule {
    ShadowRule(
      if b.on then false else if b.off then true else a.off,
      if b.on then true else if b.off then false else a.on,
      OrElse(b.offset, a.offset),
      OrElse(b.softness, a.softness),
      OrElse(b.spread, a.spread),
      OrElse(b.drawBehindWindow, a.drawBehindWindow),
      OrElse(b.color, a.color),
      OrElse(b.inactiveColor, a.inactiveColor))
  }

  function ApplyShadows(v: ShadowValue, rules: seq<ShadowRule>): ShadowValue {
    if rules == [] then v else ApplyShadow(ApplyShadows(v, rules[..|rules| - 1]), rules[|rules| - 1])
  }

  function MergeShadows(rules: seq<ShadowRule>): ShadowRule {
    if rules == [] then NoShadowRule else MergeShadow(MergeShadows(rules[..|rules| - 1]), rules[|rules| - 1])
  }

  /** Merging a rule in makes no difference unless it says both `on` and `off`. */
  lemma MergingShadowsIsApplyingIff(v: ShadowValue, a: ShadowRule, b: ShadowRule)
    ensures ApplyShadow(v, MergeShadow(a, b)) == ApplyShadow(ApplyShadow(v, a), b) <==> !(b.on && b.off)
  {
  }

  /** The last rule that switches the shadow at all says both `on` and `off`. */
  predicate LastSwitchIsBoth(rules: seq<ShadowRule>) {
    rules != [] &&
    var last := rules[|rules| - 1];
    (last.on && last.off) || (!last.on && !last.off && LastSwitchIsBoth(rules[..|rules| - 1]))
  }

  /** The merged rule and the rules one by one differ in the switch at most, and then exactly in it. */
  lemma {:induction false} MergedShadowsDifferInSwitch(v: ShadowValue, rules: seq<ShadowRule>)
    ensures ApplyShadow(v, MergeShadows(rules)) ==
      ApplyShadows(v, rules).(on := ApplyShadows(v, rules).on != LastSwitchIsBoth(rules))
    ensures LastSwitchIsBoth(rules) ==> !ApplyShadows(v, rules).on && MergeShadows(rules).on && !MergeShadows(rules).off
    ensures !(MergeShadows(rules).on && MergeShadows(rules).off)
  {
    if rules != [] {
      MergedShadowsDifferInSwitch(v, rules[..|rules| - 1]);
    }
  }

  lemma MergedShadowsApplyAlikeIff(v: ShadowValue, rules: seq<ShadowRule>)
    ensures ApplyShadow(v, MergeShadows(rules)) == ApplyShadows(v, rules) <==> !LastSwitchIsBoth(rules)
  {
    MergedShadowsDifferInSwitch(v, rules);
  }

  // ----- tab indicators

  function MergeTabIndicator(a: TabIndicatorRule, b: TabIndicatorRule): TabIndicatorRule {
    TabIndicatorRule(MergePaint(a.active, b.active), MergePaint(a.inactive, b.inactive), MergePaint(a.urgent, b.urgent))
  }

  lemma TabIndicatorRulesAreMonoid(a: TabIndicatorRule, b: TabIndicatorRule, c: TabIndicatorRule)
    ensures MergeTabIndicator(MergeTabIndicator(a, b), c) == MergeTabIndicator(a, MergeTabIndicator(b, c))
    ensures MergeTabIndicator(a, NoTabIndicatorRule) == a == MergeTabIndicator(NoTabIndicatorRule, a)
  {
  }

  function MergeTabIndicators(rules: seq<TabIndicatorRule>): TabIndicatorRule {
    if rules == [] then NoTabIndicatorRule
    else MergeTabIndicator(MergeTabIndicators(rules[..|rules| - 1]), rules[|rules| - 1])
  }

  // ----- what a list of rules amounts to

  /** A gradient clears nothing, a color clears the gradient of all rules before it. */
  function GradientWord(rule: PaintRule): Option<Option<Gradient>> {
    if rule.gradient.Some? then Some(rule.gradient) else if rule.color.Some? then Some(None) else None
  }

  /** `on` wins over `off` in a border rule. */
  function BorderOffWord(rule: BorderRule): Option<bool> {
    if rule.on then Some(false) else if rule.off then Some(true) else None
  }

  /** `off` wins over `on` in a shadow rule. */
  function ShadowOnWord(rule: ShadowRule): Option<bool> {
    if rule.off then Some(false) else if rule.on then Some(true) else None
  }

  function Keep<T>(o: Option<T>): Option<Option<T>> {
    if o.Some? then Some(o) else None
  }

  /** Every part of a border is what the last rule that mentions it says. */
  lemma {:induction false} BorderIsLastWords(v: BorderValue, rules: seq<BorderRule>)
    ensures var r := ApplyBorders(v, rules);
      && r.off == LastWord(BorderOffWord, rules, v.off)
      && r.width == LastWord((x: BorderRule) => x.width, rules, v.width)
      && r.active.color == LastWord((x: BorderRule) => x.active.color, rules, v.active.color)
      && r.active.gradient == LastWord((x: BorderRule) => GradientWord(x.active), rules, v.active.gradient)
      && r.inactive.color == LastWord((x: BorderRule) => x.inactive.color, rules, v.inactive.color)
      && r.inactive.gradient == LastWord((x: BorderRule) => GradientWord(x.inactive), rules, v.inactive.gradient)
      && r.urgent.color == LastWord((x: BorderRule) => x.urgent.color, rules, v.urgent.color)
      && r.urgent.gradient == LastWord((x: BorderRule) => GradientWord(x.urgent), rules, v.urgent.gradient)
  {
    if rules != [] {
      BorderIsLastWords(v, rules[..|rules| - 1]);
    }
  }

  lemma {:induction false} ShadowIsLastWords(v: ShadowValue, rules: seq<ShadowRule>)
    ensures var r := ApplyShadows(v, rules);
      && r.on == LastWord(ShadowOnWord, rules, v.on)
      && r.offset == LastWord((x: ShadowRule) => x.offset, rules, v.offset)
      && r.softness == LastWord((x: ShadowRule) => x.softness, rules, v.softness)
      && r.spread == LastWord((x: ShadowRule) => x.spread, rules, v.spread)
      && r.drawBehindWindow == LastWord((x: ShadowRule) => x.drawBehindWindow, rules, v.drawBehindWindow)
      && r.color == LastWord((x: ShadowRule) => x.color, rules, v.color)
      && r.inactiveColor == LastWord((x: ShadowRule) => Keep(x.inactiveColor), rules, v.inactiveColor)
  {
    if rules != [] {
      ShadowIsLastWords(v, rules[..|rules| - 1]);
    }
  }

  lemma {:induction false} TabIndicatorIsLastWords(rules: seq<TabIndicatorRule>)
    ensures var r := MergeTabIndicators(rules);
      && r.active.color == LastWord((x: TabIndicatorRule) => Keep(x.active.color), rules, None)
      && r.active.gradient == LastWord((x: TabIndicatorRule) => GradientWord(x.active), rules, None)
      && r.inactive.color == LastWord((x: TabIndicatorRule) => Keep(x.inactive.color), rules, None)
      && r.inactive.gradient == LastWord((x: TabIndicatorRule) => GradientWord(x.inactive), rules, None)
      && r.urgent.color == LastWord((x: TabIndicatorRule) => Keep(x.urgent.color), rules, None)
      && r.urgent.gradient == LastWord((x: TabIndicatorRule) => GradientWord(x.urgent), rules, None)
  {
    if rules != [] {
      TabIndicatorIsLastWords(rules[..|rules| - 1]);
    }
  }

  // ----- the settings, merged into step by step

  /** A color and gradient of a setting after a part of a rule. */
  method MergeColorGradient(color: Color, gradient: Option<Gradient>, part: PaintRule) returns (c: Color, g: Option<Gradient>)
    ensures Paint(c, g) == ApplyPaint(Paint(color, gradient), part)
  {
    c, g := color, gradient;
    if part.color.Some? {
      c := part.color.value;
      g := None;
    }
    if part.gradient.Some? {
      g := part.gradient;
    }
  }

  /** The same for a rule, where the color may be unset. */
  method MergeColorGradientOpt(color: Option<Color>, gradient: Option<Gradient>, part: PaintRule)
    returns (c: Option<Color>, g: Option<Gradient>)
    ensures PaintRule(c, g) == MergePaint(PaintRule(color, gradient), part)
  {
    c, g := color, gradient;
    if part.color.Some? {
      c := part.color;
      g := None;
    }
    if part.gradient.Some? {
      g := part.gradient;
    }
  }

  class Border {
    var off: bool
    var width: real
    var activeColor: Color
    var inactiveColor: Color
    var urgentColor: Color
    var activeGradient: Option<Gradient>
    var inactiveGradient: Option<Gradient>
    var urgentGradient: Option<Gradient>

    constructor (v: BorderValue)
      ensures Value() == v
    {
      off, width := v.off, v.width;
      activeColor, activeGradient := v.active.color, v.active.gradient;
      inactiveColor, inactiveGradient := v.inactive.color, v.inactive.gradient;
      urgentColor, urgentGradient := v.urgent.color, v.urgent.gradient;
    }

    function Value(): BorderValue
      reads this
    {
      BorderValue(off, width,
        Paint(activeColor, activeGradient), Paint(inactiveColor, inactiveGradient), Paint(urgentColor, urgentGradient))
    }

    method MergeWith(part: BorderRule)
      modifies this
      ensures Value() == ApplyBorder(old(Value()), part)
    {
      off := off || part.off;
      if part.on {
        off := false;
      }
      if part.width.Some? {
        width := part.width.value;
      }
      activeColor, activeGradient := MergeColorGradient(activeColor, activeGradient, part.active);
      inactiveColor, inactiveGradient := MergeColorGradient(inactiveColor, inactiveGradient, part.inactive);
      urgentColor, urgentGradient := MergeColorGradient(urgentColor, urgentGradient, part.urgent);
    }
  }

  /** A border rule while window rules are being merged into it. */
  class ResolvedBorderRule {
    var off: bool
    var on: bool
    var width: Option<real>
    var activeColor: Option<Color>
    var inactiveColor: Option<Color>
    var urgentColor: Option<Color>
    var activeGradient: Option<Gradient>
    var inactiveGradient: Option<Gradient>
    var urgentGradient: Option<Gradient>

    constructor ()
      ensures Value() == NoBorderRule
    {
      off, on, width := false, false, None;
      activeColor, inactiveColor, urgentColor := None, None, None;
      activeGradient, inactiveGradient, urgentGradient := None, None, None;
    }

    function Value(): BorderRule
      reads this
    {
      BorderRule(off, on, width,
        PaintRule(activeColor, activeGradient), PaintRule(inactiveColor, inactiveGradient), PaintRule(urgentColor, urgentGradient))
    }

    method MergeWith(part: BorderRule)
      modifies this
      ensures Value() == MergeBorder(old(Value()), part)
    {
      if part.off {
        off := true;
        on := false;
      }
      if part.on {
        off := false;
        on := true;
      }
      if part.width.Some? {
        width := part.width;
      }
      activeColor, activeGradient := MergeColorGradientOpt(activeColor, activeGradient, part.active);
      inactiveColor, inactiveGradient := MergeColorGradientOpt(inactiveColor, inactiveGradient, part.inactive);
      urgentColor, urgentGradient := MergeColorGradientOpt(urgentColor, urgentGradient, part.urgent);
    }
  }

  class Shadow {
    var on: bool
    var offset: (real, real)
    var softness: real
    var spread: real
    var drawBehindWindow: bool
    var color: Color
    var inactiveColor: Option<Color>

    constructor (v: ShadowValue)
      ensures Value() == v
    {
      on, offset, softness, spread := v.on, v.offset, v.softness, v.spread;
      drawBehindWindow, color, inactiveColor := v.drawBehindWindow, v.color, v.inactiveColor;
    }

    function Value(): ShadowValue
      reads this
    {
      ShadowValue(on, offset, softness, spread, drawBehindWindow, color, inactiveColor)
    }

    method MergeWith(part: ShadowRule)
      modifies this
      ensures Value() == ApplyShadow(old(Value()), part)
    {
      on := on || part.on;
      if part.off {
        on := false;
      }
      MergeGeometry(part);
      if part.drawBehindWindow.Some? { drawBehindWindow := part.drawBehindWindow.value; }
      if part.color.Some? { color := part.color.value; }
      if part.inactiveColor.Some? { inactiveColor := part.inactiveColor; }
    }

    method MergeGeometry(part: ShadowRule)
      modifies `offset, `softness, `spread
      ensures offset == part.offset.GetOr(old(offset))
      ensures softness == part.softness.GetOr(old(softness))
      ensures spread == part.spread.GetOr(old(spread))
    {
      if part.softness.Some? { softness := part.softness.value; }
      if part.spread.Some? { spread := part.spread.value; }
      if part.offset.Some? { offset := part.offset.value; }
    }
  }

  /** A shadow rule while window rules are being merged into it. */
  class ResolvedShadowRule {
    var off: bool
    var on: bool
    var offset: Option<(real, real)>
    var softness: Option<real>
    var spread: Option<real>
    var drawBehindWindow: Option<bool>
    var color: Option<Color>
    var inactiveColor: Option<Color>

    constructor ()
      ensures Value() == NoShadowRule
    {
      off, on, offset, softness, spread := false, false, None, None, None;
      drawBehindWindow, color, inactiveColor := None, None, None;
    }

    function Value(): ShadowRule
      reads this
    {
      ShadowRule(off, on, offset, softness, spread, drawBehindWindow, color, inactiveColor)
    }

    method MergeWith(part: ShadowRule)
      modifies this
      ensures Value() == MergeShadow(old(Value()), part)
    {
      if part.off {
        off := true;
        on := false;
      }
      if part.on {
        off := false;
        on := true;
      }
      if part.offset.Some? { offset := part.offset; }
      if part.softness.Some? { softness := part.softness; }
      if part.spread.Some? { spread := part.spread; }
      if part.drawBehindWindow.Some? { drawBehindWindow := part.drawBehindWindow; }
      if part.color.Some? { color := part.color; }
      if part.inactiveColor.Some? { inactiveColor := part.inactiveColor; }
    }
  }
}

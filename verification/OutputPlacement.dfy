/**
  Placing outputs in the global coordinate space.

  Logical sizes are real numbers. The placement guard rounds the size of the output it is about to
  place, while an output that is already mapped occupies its size rounded up; the two differ by up
  to one pixel, and the lemmas say what that does to overlaps.
 */
module OutputPlacement {
  import opened Options
  import opened OutputNames
  import opened OutputSections

  datatype Rect = Rect(loc: Point, w: int, h: int)

  datatype Output = Output(name: OutputName, width: real, height: real)

  datatype Placed = Placed(output: Output, loc: Point)

  function Round(r: real): int { (r + 0.5).Floor }
  function Ceil(r: real): int { -((-r).Floor) }

  predicate Overlaps(a: Rect, b: Rect) {
    !(a.loc.x + a.w <= b.loc.x || b.loc.x + b.w <= a.loc.x || a.loc.y + a.h <= b.loc.y || b.loc.y + b.h <= a.loc.y)
  }

  /** The space an output would take at `loc`, as the placement guard computes it. */
  function Target(output: Output, loc: Point): Rect {
    Rect(loc, Round(output.width), Round(output.height))
  }

  /** The space a mapped output takes. */
  function Geometry(p: Placed): Rect {
    Rect(p.loc, Ceil(p.output.width), Ceil(p.output.height))
  }

  predicate Contains(r: Rect, x: int, y: int) {
    r.loc.x <= x < r.loc.x + r.w && r.loc.y <= y < r.loc.y + r.h
  }

  /** Rectangles that are not empty overlap exactly if they share a pixel. */
  lemma OverlapsIff(a: Rect, b: Rect)
    requires a.w > 0 && a.h > 0 && b.w > 0 && b.h > 0
    ensures Overlaps(a, b) <==> exists x, y :: Contains(a, x, y) && Contains(b, x, y)
  {
    var x, y := Max(a.loc.x, b.loc.x), Max(a.loc.y, b.loc.y);
    if Overlaps(a, b) {
      assert Contains(a, x, y) && Contains(b, x, y);
    }
  }

  /** The guard takes the nearest whole size, a mapped output the next one that is large enough. */
  lemma SizesAre(output: Output, loc: Point)
    ensures var target, geometry := Target(output, loc), Geometry(Placed(output, loc));
      && target.loc == geometry.loc == loc
      && target.w as real - 0.5 <= output.width < target.w as real + 0.5
      && target.h as real - 0.5 <= output.height < target.h as real + 0.5
      && (geometry.w - 1) as real < output.width <= geometry.w as real
      && (geometry.h - 1) as real < output.height <= geometry.h as real
  {
  }

  // ----- configured positions

  function ConfiguredPosition(config: Outputs, output: Output): Option<Point> {
    var section := Find(config, output.name);
    if section.Some? then section.value.position else None
  }

  /** The first section that matches the name decides, also if it leaves the position open. */
  lemma {:induction false} ConfiguredPositionIs(config: Outputs, output: Output, i: nat)
    requires i < |config| && Matches(output.name, config[i].name)
    requires forall j | 0 <= j < i :: !Matches(output.name, config[j].name)
    ensures ConfiguredPosition(config, output) == config[i].position
  {
    if i > 0 {
      ConfiguredPositionIs(config[1..], output, i - 1);
    }
  }

  lemma {:induction false} UnmatchedIsUnconfigured(config: Outputs, output: Output)
    requires forall j | 0 <= j < |config| :: !Matches(output.name, config[j].name)
    ensures ConfiguredPosition(config, output) == None
  {
    if config != [] {
      UnmatchedIsUnconfigured(config[1..], output);
    }
  }

  // ----- the order of placement

  predicate Before(a: Output, b: Output) {
    Compare(a.name, b.name) == Less
  }

  function InsertByName(output: Output, sorted: seq<Output>): seq<Output> {
    if sorted == [] || Before(output, sorted[0]) then [output] + sorted
    else [sorted[0]] + InsertByName(output, sorted[1..])
  }

  /** The first sort, by name. Any sorting algorithm gives this: see `SortedIsUnique`. */
  function SortByName(outputs: seq<Output>): seq<Output> {
    if outputs == [] then [] else InsertByName(outputs[0], SortByName(outputs[1..]))
  }

  function Select(outputs: seq<Output>, config: Outputs, configured: bool): seq<Output> {
    if outputs == [] then []
    else if ConfiguredPosition(config, outputs[0]).Some? == configured then
      [outputs[0]] + Select(outputs[1..], config, configured)
    else
      Select(outputs[1..], config, configured)
  }

  /** The second sort is stable and by a boolean key, which makes it a partition. */
  function PlacementOrder(outputs: seq<Output>, config: Outputs): seq<Output> {
    var byName := SortByName(outputs);
    Select(byName, config, true) + Select(byName, config, false)
  }

  // ----- placement

  predicate IsFree(placed: seq<Placed>, target: Rect) {
    forall i | 0 <= i < |placed| :: !Overlaps(Geometry(placed[i]), target)
  }

  /** The right edge of everything placed so far; the first output goes to 0. */
  function RightEdge(placed: seq<Placed>): int {
    if placed == [] then 0
    else
      var last := placed[|placed| - 1];
      var edge := last.loc.x + Ceil(last.output.width);
      if |placed| == 1 then edge else Max(RightEdge(placed[..|placed| - 1]), edge)
  }

  function Max(a: int, b: int): int { if a < b then b else a }

  function PositionFor(placed: seq<Placed>, output: Output, config: Outputs): Point {
    var configured := ConfiguredPosition(config, output);
    if configured.Some? && IsFree(placed, Target(output, configured.value)) then configured.value
    else Point(RightEdge(placed), 0)
  }

  function Place(placed: seq<Placed>, rest: seq<Output>, config: Outputs): seq<Placed>
    decreases |rest|
  {
    if rest == [] then placed
    else Place(placed + [Placed(rest[0], PositionFor(placed, rest[0], config))], rest[1..], config)
  }

  /** Where everything ends up. */
  function Layout(outputs: seq<Output>, config: Outputs): seq<Placed> {
    Place([], PlacementOrder(outputs, config), config)
  }

  function OutputsOf(placed: seq<Placed>): seq<Output> {
    seq(|placed|, i requires 0 <= i < |placed| => placed[i].output)
  }

  /** `Place` maps every output, in order, to the position chosen against the ones before it. */
  lemma {:induction false} PlaceStepByStep(placed: seq<Placed>, rest: seq<Output>, config: Outputs)
    ensures var result := Place(placed, rest, config);
      && |result| == |placed| + |rest|
      && result[..|placed|] == placed
      && (forall i | 0 <= i < |rest| ::
            && result[|placed| + i].output == rest[i]
            && result[|placed| + i].loc == PositionFor(result[..|placed| + i], rest[i], config))
    decreases |rest|
  {
    if rest != [] {
      var next := placed + [Placed(rest[0], PositionFor(placed, rest[0], config))];
      var result := Place(placed, rest, config);
      PlaceStepByStep(next, rest[1..], config);
      assert result[..|placed|] == result[..|next|][..|placed|] == placed;
      assert result[|placed|] == result[..|next|][|placed|];
      forall i | 0 <= i < |rest|
        ensures result[|placed| + i].output == rest[i]
        ensures result[|placed| + i].loc == PositionFor(result[..|placed| + i], rest[i], config)
      {
        if i > 0 {
          assert rest[1..][i - 1] == rest[i];
          assert |next| + (i - 1) == |placed| + i;
        }
      }
    }
  }

  // ----- the placement does not depend on the order of enumeration

  predicate UniqueConnectors(outputs: seq<Output>) {
    forall i, j | 0 <= i < j < |outputs| :: outputs[i].name.connector != outputs[j].name.connector
  }

  predicate IsSortedByName(outputs: seq<Output>) {
    forall i, j | 0 <= i < j < |outputs| :: Before(outputs[i], outputs[j])
  }

  /** In front of sorted outputs, an output that comes before the first comes before all. */
  lemma PrependKeepsSorted(output: Output, sorted: seq<Output>)
    requires IsSortedByName(sorted) && (sorted != [] ==> Before(output, sorted[0]))
    ensures IsSortedByName([output] + sorted)
  {
    forall j | 0 <= j < |sorted| ensures Before(output, sorted[j]) {
      if j > 0 {
        CompareIsTransitive(output.name, sorted[0].name, sorted[j].name);
      }
    }
  }

  lemma {:induction false} InsertKeepsSorted(output: Output, sorted: seq<Output>)
    requires IsSortedByName(sorted)
    requires forall i | 0 <= i < |sorted| :: sorted[i].name != output.name
    ensures IsSortedByName(InsertByName(output, sorted))
    ensures multiset(InsertByName(output, sorted)) == multiset{output} + multiset(sorted)
    ensures InsertByName(output, sorted)[0] == output || (sorted != [] && InsertByName(output, sorted)[0] == sorted[0])
  {
    if sorted == [] || Before(output, sorted[0]) {
      PrependKeepsSorted(output, sorted);
    } else {
      CompareIsTotal(output.name, sorted[0].name);
      assert sorted == [sorted[0]] + sorted[1..];
      InsertKeepsSorted(output, sorted[1..]);
      PrependKeepsSorted(sorted[0], InsertByName(output, sorted[1..]));
    }
  }

  lemma {:induction false} SortByNameSorts(outputs: seq<Output>)
    requires UniqueConnectors(outputs)
    ensures IsSortedByName(SortByName(outputs))
    ensures multiset(SortByName(outputs)) == multiset(outputs)
  {
    if outputs != [] {
      var sorted := SortByName(outputs[1..]);
      SortByNameSorts(outputs[1..]);
      assert outputs == [outputs[0]] + outputs[1..];
      forall i | 0 <= i < |sorted| ensures sorted[i].name != outputs[0].name {
        assert sorted[i] in multiset(sorted);
        var j :| 0 <= j < |outputs[1..]| && outputs[1..][j] == sorted[i];
      }
      InsertKeepsSorted(outputs[0], sorted);
    }
  }

  lemma SortedStartsWithSmallest(a: seq<Output>, o: Output)
    requires IsSortedByName(a) && o in multiset(a)
    ensures a[0] == o || Before(a[0], o)
  {
    var i :| 0 <= i < |a| && a[i] == o;
  }

  lemma RestOf(a: seq<Output>)
    requires a != []
    ensures multiset(a[1..]) == multiset(a) - multiset{a[0]}
  {
    assert a == [a[0]] + a[1..];
  }

  /** There is only one way to sort outputs by name. */
  lemma {:induction false} SortedIsUnique(a: seq<Output>, b: seq<Output>)
    requires IsSortedByName(a) && IsSortedByName(b) && multiset(a) == multiset(b)
    ensures a == b
  {
    if a == [] {
      assert |multiset(b)| == 0;
    } else {
      assert a[0] in multiset(b);
      assert b[0] in multiset(a);
      SortedStartsWithSmallest(a, b[0]);
      SortedStartsWithSmallest(b, a[0]);
      CompareIsTotal(a[0].name, b[0].name);
      assert a[0] == b[0];
      RestOf(a);
      RestOf(b);
      SortedIsUnique(a[1..], b[1..]);
      assert a == [a[0]] + a[1..] && b == [b[0]] + b[1..];
    }
  }

  lemma RepeatedIsCountedTwice(outputs: seq<Output>, i: nat, j: nat)
    requires i < j < |outputs| && outputs[i] == outputs[j]
    ensures multiset(outputs)[outputs[i]] >= 2
  {
    assert outputs == outputs[..i] + [outputs[i]] + outputs[i + 1..j] + [outputs[j]] + outputs[j + 1..];
  }

  lemma UniqueIsCountedOnce(outputs: seq<Output>, i: nat)
    requires i < |outputs| && UniqueConnectors(outputs)
    ensures multiset(outputs)[outputs[i]] == 1
  {
    assert outputs == outputs[..i] + [outputs[i]] + outputs[i + 1..];
    assert outputs[i] !in outputs[..i] && outputs[i] !in outputs[i + 1..];
  }

  lemma SameOutputsSameConnectors(a: seq<Output>, b: seq<Output>)
    requires UniqueConnectors(a) && multiset(a) == multiset(b)
    ensures UniqueConnectors(b)
  {
    forall i, j | 0 <= i < j < |b| ensures b[i].name.connector != b[j].name.connector {
      assert b[i] in multiset(a) && b[j] in multiset(a);
      var k :| 0 <= k < |a| && a[k] == b[i];
      UniqueIsCountedOnce(a, k);
      if b[i] == b[j] {
        RepeatedIsCountedTwice(b, i, j);
      }
    }
  }

  /** Connectors can appear in any order: the layout is the same. */
  lemma LayoutIgnoresEnumeration(a: seq<Output>, b: seq<Output>, config: Outputs)
    requires UniqueConnectors(a) && multiset(a) == multiset(b)
    ensures PlacementOrder(a, config) == PlacementOrder(b, config)
    ensures Layout(a, config) == Layout(b, config)
  {
    SameOutputsSameConnectors(a, b);
    SortByNameSorts(a);
    SortByNameSorts(b);
    SortedIsUnique(SortByName(a), SortByName(b));
  }

  lemma {:induction false} SelectPartitions(outputs: seq<Output>, config: Outputs)
    ensures multiset(Select(outputs, config, true)) + multiset(Select(outputs, config, false)) == multiset(outputs)
    ensures forall o, c | o in Select(outputs, config, c) :: ConfiguredPosition(config, o).Some? == c
  {
    if outputs != [] {
      assert outputs == [outputs[0]] + outputs[1..];
      SelectPartitions(outputs[1..], config);
    }
  }

  lemma PlacementOrderIsPermutation(outputs: seq<Output>, config: Outputs)
    requires UniqueConnectors(outputs)
    ensures multiset(PlacementOrder(outputs, config)) == multiset(outputs)
  {
    SortByNameSorts(outputs);
    SelectPartitions(SortByName(outputs), config);
  }

  /** All outputs with a configured position are placed before all those without one. */
  lemma ConfiguredComeFirst(outputs: seq<Output>, config: Outputs, i: nat, j: nat)
    requires i < j < |PlacementOrder(outputs, config)|
    requires ConfiguredPosition(config, PlacementOrder(outputs, config)[j]).Some?
    ensures ConfiguredPosition(config, PlacementOrder(outputs, config)[i]).Some?
  {
    var byName := SortByName(outputs);
    SelectPartitions(byName, config);
    var first, second := Select(byName, config, true), Select(byName, config, false);
    assert forall k | 0 <= k < |second| :: second[k] in second;
    assert forall k | 0 <= k < |first| :: first[k] in first;
  }

  lemma LayoutKeepsOutputs(outputs: seq<Output>, config: Outputs)
    requires UniqueConnectors(outputs)
    ensures OutputsOf(Layout(outputs, config)) == PlacementOrder(outputs, config)
    ensures multiset(OutputsOf(Layout(outputs, config))) == multiset(outputs)
  {
    PlaceStepByStep([], PlacementOrder(outputs, config), config);
    PlacementOrderIsPermutation(outputs, config);
  }

  /** Laying out what is already laid out changes nothing. */
  lemma LayoutIsStable(outputs: seq<Output>, config: Outputs)
    requires UniqueConnectors(outputs)
    ensures Layout(OutputsOf(Layout(outputs, config)), config) == Layout(outputs, config)
  {
    LayoutKeepsOutputs(outputs, config);
    LayoutIgnoresEnumeration(outputs, OutputsOf(Layout(outputs, config)), config);
  }

  // ----- who gets the configured position

  lemma {:induction false} RightEdgeIsMax(placed: seq<Placed>)
    ensures forall i | 0 <= i < |placed| :: Geometry(placed[i]).loc.x + Geometry(placed[i]).w <= RightEdge(placed)
    ensures if placed == [] then RightEdge(placed) == 0
      else exists i :: 0 <= i < |placed| && Geometry(placed[i]).loc.x + Geometry(placed[i]).w == RightEdge(placed)
  {
    if placed != [] {
      var init := placed[..|placed| - 1];
      RightEdgeIsMax(init);
      forall i | 0 <= i < |init| ensures placed[i] == init[i] {
      }
      if init != [] && RightEdge(init) == RightEdge(placed) {
        var i :| 0 <= i < |init| && Geometry(init[i]).loc.x + Geometry(init[i]).w == RightEdge(init);
        assert placed[i] == init[i];
      } else {
        var last := placed[|placed| - 1];
        assert Geometry(last).loc.x + Geometry(last).w == RightEdge(placed);
      }
    }
  }

  /**
    A configured output gets exactly its configured position if and only if its rectangle is
    disjoint from all outputs placed before it; everyone else goes to the right of what is there.
   */
  lemma ConfiguredPositionIff(outputs: seq<Output>, config: Outputs, k: nat)
    requires k < |Layout(outputs, config)|
    ensures var layout := Layout(outputs, config);
      var configured := ConfiguredPosition(config, layout[k].output);
      && (configured.Some? ==>
            (layout[k].loc == configured.value <==> IsFree(layout[..k], Target(layout[k].output, configured.value))))
      && (configured.None? || layout[k].loc != configured.value ==> layout[k].loc == Point(RightEdge(layout[..k]), 0))
  {
    var order, layout := PlacementOrder(outputs, config), Layout(outputs, config);
    PlaceStepByStep([], order, config);
    assert layout[0 + k].loc == PositionFor(layout[..k], order[k], config);
    RightEdgeIsMax(layout[..k]);
  }

  // ----- overlaps

  /** Rounding to the nearest pixel, which the guard does, gives the size the output will take. */
  predicate RoundsUp(output: Output) {
    Round(output.width) == Ceil(output.width) && Round(output.height) == Ceil(output.height)
  }

  /** Whatever the sizes, an output as the guard saw it overlaps none of the earlier ones. */
  lemma GuardedRectsAreDisjoint(outputs: seq<Output>, config: Outputs, i: nat, j: nat)
    requires i < j < |Layout(outputs, config)|
    ensures var layout := Layout(outputs, config);
      !Overlaps(Geometry(layout[i]), Target(layout[j].output, layout[j].loc))
  {
    var layout := Layout(outputs, config);
    PlaceStepByStep([], PlacementOrder(outputs, config), config);
    assert layout[0 + j].loc == PositionFor(layout[..j], PlacementOrder(outputs, config)[j], config);
    RightEdgeIsMax(layout[..j]);
    assert layout[..j][i] == layout[i];
  }

  /** With the size rounded up, the guard would have said the same about the `k`-th output. */
  predicate GuardIgnoresRounding(outputs: seq<Output>, config: Outputs, k: nat)
    requires k < |Layout(outputs, config)|
  {
    var layout := Layout(outputs, config);
    var configured := ConfiguredPosition(config, layout[k].output);
    configured.Some? && IsFree(layout[..k], Target(layout[k].output, configured.value)) ==>
      IsFree(layout[..k], Geometry(Placed(layout[k].output, configured.value)))
  }

  /** No two outputs overlap exactly when rounding the size never misled the guard. */
  lemma NoOverlapIff(outputs: seq<Output>, config: Outputs)
    ensures var layout := Layout(outputs, config);
      (forall i, j | 0 <= i < j < |layout| :: !Overlaps(Geometry(layout[i]), Geometry(layout[j])))
      <==> (forall k | 0 <= k < |layout| :: GuardIgnoresRounding(outputs, config, k))
  {
    var layout := Layout(outputs, config);
    forall k | 0 <= k < |layout|
      ensures GuardIgnoresRounding(outputs, config, k) <==>
        forall i | 0 <= i < k :: !Overlaps(Geometry(layout[i]), Geometry(layout[k]))
    {
      ConfiguredPositionIff(outputs, config, k);
      RightEdgeIsMax(layout[..k]);
      forall i | 0 <= i < k ensures layout[..k][i] == layout[i] {
      }
    }
  }

  ghost predicate NoneOverlap(placed: seq<Placed>) {
    forall i, j | 0 <= i < j < |placed| :: !Overlaps(Geometry(placed[i]), Geometry(placed[j]))
  }

  /** Every size rounds up, as integer sizes do, except perhaps that of the first output by name. */
  predicate AllButFirstRoundUp(outputs: seq<Output>) {
    var byName := SortByName(outputs);
    forall k | 1 <= k < |byName| :: RoundsUp(byName[k])
  }

  /** If the first output by name has a configured position then it is the first one to be placed. */
  lemma FirstByNameIsPlacedFirst(outputs: seq<Output>, config: Outputs, k: nat)
    requires UniqueConnectors(outputs) && k < |Layout(outputs, config)|
    requires Layout(outputs, config)[k].output == SortByName(outputs)[0]
    requires ConfiguredPosition(config, SortByName(outputs)[0]).Some?
    ensures k == 0
  {
    var order := PlacementOrder(outputs, config);
    LayoutKeepsOutputs(outputs, config);
    assert OutputsOf(Layout(outputs, config))[k] == order[k];
    SameOutputsSameConnectors(outputs, order);
    assert order[0] == SortByName(outputs)[0];
  }

  /** Then there is no overlap, whatever the configuration. */
  lemma NoOverlapIfRoundedUp(outputs: seq<Output>, config: Outputs)
    requires UniqueConnectors(outputs) && AllButFirstRoundUp(outputs)
    ensures NoneOverlap(Layout(outputs, config))
  {
    var layout, byName := Layout(outputs, config), SortByName(outputs);
    LayoutKeepsOutputs(outputs, config);
    SortByNameSorts(outputs);
    forall k | 0 <= k < |layout| ensures GuardIgnoresRounding(outputs, config, k) {
      assert OutputsOf(layout)[k] in multiset(byName);
      var i :| 0 <= i < |byName| && byName[i] == layout[k].output;
      if i == 0 && ConfiguredPosition(config, byName[0]).Some? {
        FirstByNameIsPlacedFirst(outputs, config, k);
      }
    }
    NoOverlapIff(outputs, config);
  }

  /** Every output can be given a configured position of its own, by its connector. */
  predicate CanBeToldApart(outputs: seq<Output>) {
    forall i, j | 0 <= i < |outputs| && 0 <= j < |outputs| && i != j ::
      !Matches(outputs[i].name, outputs[j].name.connector)
  }

  lemma {:induction false} SelectAppend(a: seq<Output>, b: seq<Output>, config: Outputs, configured: bool)
    ensures Select(a + b, config, configured) == Select(a, config, configured) + Select(b, config, configured)
  {
    if a == [] {
      assert a + b == b;
    } else {
      assert (a + b)[0] == a[0] && (a + b)[1..] == a[1..] + b;
      SelectAppend(a[1..], b, config, configured);
    }
  }

  lemma {:induction false} SelectNothing(outputs: seq<Output>, config: Outputs)
    requires forall i | 0 <= i < |outputs| :: ConfiguredPosition(config, outputs[i]).None?
    ensures Select(outputs, config, true) == []
  {
    if outputs != [] {
      SelectNothing(outputs[1..], config);
    }
  }

  /** A section with nothing but a position. */
  function Positioned(target: Str, at: Point): Section {
    DefaultSection(target).(position := Some(at))
  }

  /** A configuration for two outputs only. */
  function PairConfig(a: Output, at: Point, b: Output, bt: Point): Outputs {
    [Positioned(a.name.connector, at), Positioned(b.name.connector, bt)]
  }

  lemma PairConfigures(byName: seq<Output>, k: nat, at: Point, bt: Point, i: nat)
    requires 1 <= k < |byName| && CanBeToldApart(byName) && i < |byName|
    ensures ConfiguredPosition(PairConfig(byName[0], at, byName[k], bt), byName[i]) ==
      if i == 0 then Some(at) else if i == k then Some(bt) else None
  {
    var config, name := PairConfig(byName[0], at, byName[k], bt), byName[i].name;
    MatchesItsOwnNames(name);
    FirstIndexIs(IsFor(name), config, if i == 0 then 0 else if i == k then 1 else 2);
    FindIsIndexed(config, name);
  }

  lemma SelectFirst(outputs: seq<Output>, config: Outputs)
    requires outputs != [] && ConfiguredPosition(config, outputs[0]).Some?
    requires forall i | 1 <= i < |outputs| :: ConfiguredPosition(config, outputs[i]).None?
    ensures Select(outputs, config, true) == [outputs[0]]
  {
    SelectNothing(outputs[1..], config);
  }

  lemma SelectPair(outputs: seq<Output>, k: nat, config: Outputs)
    requires 1 <= k < |outputs|
    requires forall i | 0 <= i < |outputs| :: ConfiguredPosition(config, outputs[i]).Some? <==> i == 0 || i == k
    ensures Select(outputs, config, true) == [outputs[0], outputs[k]]
  {
    SelectFirst(outputs[..k], config);
    SelectFirst(outputs[k..], config);
    assert outputs == outputs[..k] + outputs[k..];
    SelectAppend(outputs[..k], outputs[k..], config, true);
  }

  lemma PairIsConfigured(byName: seq<Output>, k: nat, at: Point, bt: Point)
    requires 1 <= k < |byName| && CanBeToldApart(byName)
    ensures var config := PairConfig(byName[0], at, byName[k], bt);
      && ConfiguredPosition(config, byName[0]) == Some(at)
      && ConfiguredPosition(config, byName[k]) == Some(bt)
      && Select(byName, config, true) == [byName[0], byName[k]]
  {
    var config := PairConfig(byName[0], at, byName[k], bt);
    forall i | 0 <= i < |byName|
      ensures ConfiguredPosition(config, byName[i]) == if i == 0 then Some(at) else if i == k then Some(bt) else None
    {
      PairConfigures(byName, k, at, bt, i);
    }
    SelectPair(byName, k, config);
  }

  /** The two configured outputs are placed first, and side by side if the guard sees no overlap. */
  lemma PairIsPlaced(outputs: seq<Output>, k: nat, bt: Point)
    requires 1 <= k < |SortByName(outputs)| && CanBeToldApart(SortByName(outputs))
    requires var byName := SortByName(outputs);
      !Overlaps(Geometry(Placed(byName[0], Point(0, 0))), Target(byName[k], bt))
    ensures var byName := SortByName(outputs);
      var layout := Layout(outputs, PairConfig(byName[0], Point(0, 0), byName[k], bt));
      |layout| >= 2 && layout[0] == Placed(byName[0], Point(0, 0)) && layout[1] == Placed(byName[k], bt)
  {
    var byName := SortByName(outputs);
    var config := PairConfig(byName[0], Point(0, 0), byName[k], bt);
    PairIsConfigured(byName, k, Point(0, 0), bt);
    var order, layout := PlacementOrder(outputs, config), Layout(outputs, config);
    assert order[0] == byName[0] && order[1] == byName[k];
    PlaceStepByStep([], order, config);
    assert layout[0 + 0].loc == PositionFor(layout[..0], order[0], config);
    assert layout[0 + 1].loc == PositionFor(layout[..1], order[1], config);
    assert layout[..1] == [layout[0]];
  }

  /** To the left of the origin, or above it if the width rounds up. */
  function Beside(output: Output): Point {
    if Round(output.width) != Ceil(output.width) then Point(-Round(output.width), 0)
    else Point(0, -Round(output.height))
  }

  predicate HasArea(output: Output) {
    output.width > 0.0 && output.height > 0.0
  }

  /** An output that rounds down, put beside the first one, overlaps it unnoticed by the guard. */
  lemma RoundingDownMisleads(a: Output, b: Output)
    requires HasArea(a) && HasArea(b) && !RoundsUp(b)
    ensures var first := Geometry(Placed(a, Point(0, 0)));
      !Overlaps(first, Target(b, Beside(b))) && Overlaps(first, Geometry(Placed(b, Beside(b))))
  {
  }

  lemma RoundingDownOverlaps(outputs: seq<Output>, k: nat)
    requires 1 <= k < |SortByName(outputs)| && CanBeToldApart(SortByName(outputs))
    requires forall o | o in SortByName(outputs) :: HasArea(o)
    requires !RoundsUp(SortByName(outputs)[k])
    ensures exists config :: !NoneOverlap(Layout(outputs, config))
  {
    var a, b := SortByName(outputs)[0], SortByName(outputs)[k];
    RoundingDownMisleads(a, b);
    PairIsPlaced(outputs, k, Beside(b));
    FirstTwoOverlap(Layout(outputs, PairConfig(a, Point(0, 0), b, Beside(b))));
  }

  lemma FirstTwoOverlap(placed: seq<Placed>)
    requires |placed| >= 2 && Overlaps(Geometry(placed[0]), Geometry(placed[1]))
    ensures !NoneOverlap(placed)
  {
  }

  /**
    Which outputs can be configured freely: no configuration makes any of them overlap exactly when
    all of them round up, except perhaps the first one by name.
   */
  lemma NoConfigOverlapsIff(outputs: seq<Output>)
    requires UniqueConnectors(outputs) && CanBeToldApart(outputs)
    requires forall o | o in outputs :: HasArea(o)
    ensures (forall config :: NoneOverlap(Layout(outputs, config))) <==> AllButFirstRoundUp(outputs)
  {
    var byName := SortByName(outputs);
    SortByNameSorts(outputs);
    if AllButFirstRoundUp(outputs) {
      forall config ensures NoneOverlap(Layout(outputs, config)) {
        NoOverlapIfRoundedUp(outputs, config);
      }
    } else {
      var k :| 1 <= k < |byName| && !RoundsUp(byName[k]);
      SortingKeepsApart(outputs);
      forall o | o in byName ensures o in outputs {
        assert o in multiset(byName);
      }
      RoundingDownOverlaps(outputs, k);
    }
  }

  lemma SortingKeepsApart(outputs: seq<Output>)
    requires UniqueConnectors(outputs) && CanBeToldApart(outputs)
    ensures CanBeToldApart(SortByName(outputs))
  {
    var byName := SortByName(outputs);
    SortByNameSorts(outputs);
    SameOutputsSameConnectors(outputs, byName);
    forall i, j | 0 <= i < |byName| && 0 <= j < |byName| && i != j
      ensures !Matches(byName[i].name, byName[j].name.connector)
    {
      assert byName[i] in multiset(outputs) && byName[j] in multiset(outputs);
      var k :| 0 <= k < |outputs| && outputs[k] == byName[i];
      var l :| 0 <= l < |outputs| && outputs[l] == byName[j];
      assert k != l;
    }
  }

  lemma SortedPair(a: Output, b: Output)
    requires Before(a, b)
    ensures SortByName([a, b]) == [a, b]
  {
    assert [a, b][1..] == [b] && [b][1..] == [];
    assert SortByName([b]) == [b];
  }

  /** A width of 100.25 configured to end where the next output begins: the two share a column. */
  lemma FractionalSizesCanOverlap()
    ensures exists outputs, config :: UniqueConnectors(outputs) && !NoneOverlap(Layout(outputs, config))
  {
    var a := Output(OutputName([65], None, None, None), 100.0, 100.0);
    var b := Output(OutputName([66], None, None, None), 100.25, 100.0);
    SortedPair(a, b);
    assert Beside(b) == Point(-100, 0);
    RoundingDownMisleads(a, b);
    PairIsPlaced([a, b], 1, Point(-100, 0));
    FirstTwoOverlap(Layout([a, b], PairConfig(a, Point(0, 0), b, Point(-100, 0))));
    assert UniqueConnectors([a, b]);
  }

  // ----- the compositor's global space

  function LocationOf(placed: seq<Placed>, output: Output): Option<Point> {
    if placed == [] then None
    else if placed[0].output == output then Some(placed[0].loc)
    else LocationOf(placed[1..], output)
  }

  /** The outputs whose position is not the one they had. */
  function Moved(before: seq<Placed>, after: seq<Placed>): seq<Output> {
    if after == [] then []
    else
      var last := after[|after| - 1];
      var moved := Moved(before, after[..|after| - 1]);
      if LocationOf(before, last.output) == Some(last.loc) then moved else moved + [last.output]
  }

  lemma {:induction false} LocationOfPlaced(placed: seq<Placed>, i: nat)
    requires i < |placed| && UniqueConnectors(OutputsOf(placed))
    ensures LocationOf(placed, placed[i].output) == Some(placed[i].loc)
  {
    if i > 0 {
      assert OutputsOf(placed)[0] != OutputsOf(placed)[i];
      assert forall k | 0 <= k < |placed| - 1 :: OutputsOf(placed[1..])[k] == OutputsOf(placed)[k + 1];
      LocationOfPlaced(placed[1..], i - 1);
    }
  }

  lemma {:induction false} NothingMoved(before: seq<Placed>, after: seq<Placed>)
    requires forall i | 0 <= i < |after| :: LocationOf(before, after[i].output) == Some(after[i].loc)
    ensures Moved(before, after) == []
  {
    if after != [] {
      NothingMoved(before, after[..|after| - 1]);
    }
  }

  /** Repositioning a space that was just repositioned moves and announces nothing. */
  lemma RepositioningAgainMovesNothing(outputs: seq<Output>, config: Outputs)
    requires UniqueConnectors(outputs)
    ensures var layout := Layout(outputs, config);
      var again := Layout(OutputsOf(layout), config);
      again == layout && Moved(layout, again) == []
  {
    var layout := Layout(outputs, config);
    LayoutIsStable(outputs, config);
    LayoutKeepsOutputs(outputs, config);
    SameOutputsSameConnectors(outputs, OutputsOf(layout));
    forall i | 0 <= i < |layout| ensures LocationOf(layout, layout[i].output) == Some(layout[i].loc) {
      LocationOfPlaced(layout, i);
    }
    NothingMoved(layout, layout);
  }

  /** Announced are exactly the outputs that are not where they were, new ones included. */
  lemma {:induction false} MovedIff(before: seq<Placed>, after: seq<Placed>, output: Output)
    ensures output in Moved(before, after) <==>
      exists i :: 0 <= i < |after| && after[i].output == output && LocationOf(before, output) != Some(after[i].loc)
  {
    if after != [] {
      var n := |after| - 1;
      MovedIff(before, after[..n], output);
      assert forall i | 0 <= i < n :: after[..n][i] == after[i];
    }
  }

  lemma {:induction false} LocationIffPlaced(placed: seq<Placed>, output: Output)
    ensures LocationOf(placed, output).Some? <==> output in OutputsOf(placed)
  {
    if placed != [] {
      LocationIffPlaced(placed[1..], output);
      assert OutputsOf(placed) == [placed[0].output] + OutputsOf(placed[1..]);
    }
  }

  /** An output that is plugged in is always announced and redrawn. */
  lemma NewOutputIsAnnounced(before: seq<Placed>, output: Output, config: Outputs)
    requires UniqueConnectors(OutputsOf(before) + [output])
    ensures output in Moved(before, Layout(OutputsOf(before) + [output], config))
  {
    var outputs := OutputsOf(before) + [output];
    var layout := Layout(outputs, config);
    LocationIffPlaced(before, output);
    assert output !in OutputsOf(before) by {
      assert outputs[|before|] == output;
      assert forall i | 0 <= i < |before| :: outputs[i] == OutputsOf(before)[i];
    }
    LayoutKeepsOutputs(outputs, config);
    assert output in multiset(outputs);
    var i :| 0 <= i < |OutputsOf(layout)| && OutputsOf(layout)[i] == output;
    assert layout[i].output == output;
    MovedIff(before, layout, output);
  }

  class GlobalSpace {
    var mapped: seq<Placed>
    var sortedOutputs: seq<Output>
    var ipcOutputsChanged: bool

    constructor ()
      ensures mapped == [] && sortedOutputs == [] && !ipcOutputsChanged
    {
      mapped, sortedOutputs, ipcOutputsChanged := [], [], false;
    }

    /** Repositions all outputs, optionally adding a new one; returns those to announce and redraw. */
    method RepositionOutputs(newOutput: Option<Output>, config: Outputs) returns (moved: seq<Output>)
      modifies this
      ensures var outputs := OutputsOf(old(mapped)) + if newOutput.Some? then [newOutput.value] else [];
        && mapped == Layout(outputs, config)
        && sortedOutputs == PlacementOrder(outputs, config)
        && moved == Moved(old(mapped), mapped)
        && ipcOutputsChanged == (old(ipcOutputsChanged) || moved != [])
    {
      var before := mapped;
      var outputs := OutputsOf(before) + if newOutput.Some? then [newOutput.value] else [];
      mapped := [];
      sortedOutputs := PlacementOrder(outputs, config);
      moved := [];
      var order := sortedOutputs;
      for i := 0 to |order|
        invariant sortedOutputs == order
        invariant Place(mapped, order[i..], config) == Layout(outputs, config)
        invariant moved == Moved(before, mapped)
        invariant ipcOutputsChanged == (old(ipcOutputsChanged) || moved != [])
      {
        var output := order[i];
        var loc := Point(RightEdge(mapped), 0);
        var configured := ConfiguredPosition(config, output);
        if configured.Some? && IsFree(mapped, Target(output, configured.value)) {
          loc := configured.value;
        }
        assert order[i..] == [output] + order[i + 1..];
        mapped := mapped + [Placed(output, loc)];
        assert mapped[..|mapped| - 1] + [mapped[|mapped| - 1]] == mapped;
        if LocationOf(before, output) != Some(loc) {
          ipcOutputsChanged := true;
          moved := moved + [output];
        }
      }
    }
  }
}

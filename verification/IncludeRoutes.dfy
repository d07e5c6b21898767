/**
  Includes described by the routes through them.

  A route says which include to follow in each file, starting from the main file. Where it leads is
  said here in terms of paths only. Loading succeeds exactly if every file on every route is fine by
  itself, reads exactly the files that routes lead to, and merges exactly their sections.
 */
module IncludeRoutes {
  import opened Options
  import opened ConfigBinds
  import opened ConfigSections
  import opened ConfigIncludes

  /** A file that was reached: its nodes, and the paths of the files from the main one to it. */
  datatype Reached = Reached(nodes: seq<Node>, trail: seq<Path>) {
    ghost predicate Valid() {
      0 < |trail| <= 10
    }

    /** The directory of the file. */
    function Directory(): Path
      requires Valid()
    {
      var file := trail[|trail| - 1];
      if file.parts == [] then Path(false, []) else Path(file.absolute, file.parts[..|file.parts| - 1])
    }
  }

  /** The file that an include means: itself if absolute, else below the including file's directory. */
  function TargetPath(w: World, at: Reached, target: Target): Option<Path>
    requires at.Valid()
  {
    match target
    case Here(path) => Some(if path.absolute then path else Path(at.Directory().absolute, at.Directory().parts + path.parts))
    case Home(rest) => if w.home.None? then None else Some(Path(w.home.value.absolute, w.home.value.parts + rest))
  }

  /** An include is followed to a named file that is not on the trail, and no more than nine deep. */
  predicate CanFollow(w: World, at: Reached, node: Node)
    requires at.Valid()
  {
    && node.body.Include?
    && var path := TargetPath(w, at, node.body.target);
       path.Some? && HasName(path.value) && path.value !in at.trail && |at.trail| < 10
  }

  predicate HasName(path: Path) {
    path.parts != [] && path.parts[|path.parts| - 1] != ".."
  }

  /** Where following one include leads. */
  function Follow(w: World, at: Reached, node: Node): Reached
    requires at.Valid() && CanFollow(w, at, node)
  {
    var path := TargetPath(w, at, node.body.target).value;
    Reached(NodesOf(w.files(path)), at.trail + [path])
  }

  /** Where a route leads, if it can be followed to its end. */
  function Destination(w: World, at: Reached, route: seq<nat>): (to: Option<Reached>)
    requires at.Valid()
    ensures to.Some? ==> to.value.Valid()
    decreases |route|
  {
    if route == [] then Some(at)
    else if route[0] < |at.nodes| && CanFollow(w, at, at.nodes[route[0]]) then
      Destination(w, Follow(w, at, at.nodes[route[0]]), route[1..])
    else None
  }

  // ----- a file by itself

  predicate NoRepetition(nodes: seq<Node>) {
    forall i, j | 0 <= i < j < |nodes| :: nodes[i].name == nodes[j].name ==> IsMultipart(nodes[i].name)
  }

  /** The node is fine, without looking into what it includes. */
  predicate IsFineNode(w: World, at: Reached, node: Node)
    requires at.Valid()
  {
    && !node.emits && !node.fatal
    && match node.body
       case Plain(Binds(children)) => |FirstBinds(children)| == |children|
       case Plain(RecentWindows(_, Some(children))) => |FirstBinds(children)| == |children|
       case Plain(_) => true
       case Unknown(_) => false
       case Include(target, optional) =>
         CanFollow(w, at, node) &&
         match w.files(TargetPath(w, at, target).value)
         case Text(nodes) => nodes.Some?
         case NotFound => optional
         case ReadError => false
  }

  predicate IsFine(w: World, at: Reached)
    requires at.Valid()
  {
    NoRepetition(at.nodes) && forall i | 0 <= i < |at.nodes| :: IsFineNode(w, at, at.nodes[i])
  }

  /** Every file that a route leads to is fine. */
  ghost predicate AllFine(w: World, at: Reached)
    requires at.Valid()
  {
    forall route | Destination(w, at, route).Some? :: IsFine(w, Destination(w, at, route).value)
  }

  // ----- the decoder's view

  function ContextOf(at: Reached): Context
    requires at.Valid()
  {
    Context(at.Directory(), |at.trail| - 1, set p | p in at.trail)
  }

  /** The decoder enters exactly the files that can be followed, in the context of where they lead. */
  lemma EntersIffFollowed(w: World, at: Reached, node: Node)
    requires at.Valid() && node.body.Include?
    ensures ResolvedPath(w, at.Directory(), node.body.target) == TargetPath(w, at, node.body.target)
    ensures Enter(w, ContextOf(at), node.body.target).Some? <==> CanFollow(w, at, node)
    ensures CanFollow(w, at, node) ==>
      Enter(w, ContextOf(at), node.body.target) ==
        Some((TargetPath(w, at, node.body.target).value, ContextOf(Follow(w, at, node))))
  {
    if CanFollow(w, at, node) {
      var to := Follow(w, at, node);
      assert ContextOf(to).stack == ContextOf(at).stack + {to.trail[|to.trail| - 1]};
    }
  }

  /** A file has no error if its names do not repeat and none of its nodes has one. */
  lemma {:induction false} CleanIff(w: World, nodes: seq<Node>, ctx: Context, seen: set<string>)
    requires ctx.depth < RECURSION_LIMIT
    ensures IsClean(w, nodes, ctx, seen) <==>
      && NoRepetition(nodes)
      && (forall i | 0 <= i < |nodes| :: !IsDuplicate(nodes[i], seen) && IsCleanNode(w, nodes[i], ctx))
    decreases |nodes|
  {
    if nodes != [] {
      var rest, later := nodes[1..], Seen(nodes[0], seen);
      CleanIff(w, rest, ctx, later);
      assert forall i | 0 < i < |nodes| :: nodes[i] == rest[i - 1];
      assert forall i | 0 <= i < |rest| :: rest[i] == nodes[i + 1];
      assert forall i | 0 < i < |nodes| ::
        IsDuplicate(nodes[i], later) <==>
          IsDuplicate(nodes[i], seen) || (nodes[i].name == nodes[0].name && !IsMultipart(nodes[0].name));
      if NoRepetition(rest) && forall i | 0 < i < |nodes| :: nodes[i].name == nodes[0].name ==> IsMultipart(nodes[0].name) {
        forall i, j | 0 <= i < j < |nodes| && nodes[i].name == nodes[j].name ensures IsMultipart(nodes[i].name) {
          if i > 0 {
            assert rest[i - 1].name == rest[j - 1].name;
          }
        }
      }
    }
  }

  lemma CleanNodeIff(w: World, at: Reached, node: Node)
    requires at.Valid()
    ensures IsCleanNode(w, node, ContextOf(at)) <==>
      IsFineNode(w, at, node) &&
      (node.body.Include? && w.files(TargetPath(w, at, node.body.target).value).Text? ==>
         IsClean(w, Follow(w, at, node).nodes, ContextOf(Follow(w, at, node)), {}))
  {
    match node.body
    case Include(_, _) => EntersIffFollowed(w, at, node);
    case Plain(section) => CleanSectionIff(Children(section));
    case Unknown(_) =>
  }

  /** One more step at the front of a route. */
  lemma RouteStep(w: World, at: Reached, i: nat, rest: seq<nat>)
    requires at.Valid() && i < |at.nodes| && CanFollow(w, at, at.nodes[i])
    ensures Destination(w, at, [i] + rest) == Destination(w, Follow(w, at, at.nodes[i]), rest)
  {
    assert ([i] + rest)[1..] == rest;
  }

  lemma AllFineBelow(w: World, at: Reached, i: nat)
    requires at.Valid() && i < |at.nodes| && CanFollow(w, at, at.nodes[i]) && AllFine(w, at)
    ensures AllFine(w, Follow(w, at, at.nodes[i]))
  {
    var to := Follow(w, at, at.nodes[i]);
    forall rest | Destination(w, to, rest).Some? ensures IsFine(w, Destination(w, to, rest).value) {
      RouteStep(w, at, i, rest);
      assert Destination(w, at, [i] + rest).Some?;
    }
  }

  /** A file loads without an error exactly if every file on every route from it is fine. */
  lemma {:induction false} LoadsIff(w: World, at: Reached)
    requires at.Valid()
    ensures IsClean(w, at.nodes, ContextOf(at), {}) <==> AllFine(w, at)
    decreases 10 - |at.trail|
  {
    CleanIff(w, at.nodes, ContextOf(at), {});
    forall i | 0 <= i < |at.nodes|
      ensures IsCleanNode(w, at.nodes[i], ContextOf(at)) <==>
        IsFineNode(w, at, at.nodes[i]) && (CanFollow(w, at, at.nodes[i]) ==> AllFine(w, Follow(w, at, at.nodes[i])))
    {
      CleanNodeIff(w, at, at.nodes[i]);
      if CanFollow(w, at, at.nodes[i]) {
        LoadsIff(w, Follow(w, at, at.nodes[i]));
        if !w.files(TargetPath(w, at, at.nodes[i].body.target).value).Text? {
          EmptyFileIsFine(w, Follow(w, at, at.nodes[i]));
        }
      }
    }
    if AllFine(w, at) {
      assert Destination(w, at, []) == Some(at);
      forall i | 0 <= i < |at.nodes| && CanFollow(w, at, at.nodes[i]) ensures AllFine(w, Follow(w, at, at.nodes[i])) {
        AllFineBelow(w, at, i);
      }
    }
    if IsClean(w, at.nodes, ContextOf(at), {}) {
      FineFromBelow(w, at);
    }
  }

  lemma EmptyFileIsFine(w: World, at: Reached)
    requires at.Valid() && at.nodes == []
    ensures AllFine(w, at)
  {
  }

  lemma FineFromBelow(w: World, at: Reached)
    requires at.Valid() && IsFine(w, at)
    requires forall i | 0 <= i < |at.nodes| && CanFollow(w, at, at.nodes[i]) :: AllFine(w, Follow(w, at, at.nodes[i]))
    ensures AllFine(w, at)
  {
    forall route | Destination(w, at, route).Some? ensures IsFine(w, Destination(w, at, route).value) {
      if route != [] {
        var to := Follow(w, at, at.nodes[route[0]]);
        assert AllFine(w, to) && Destination(w, to, route[1..]).Some?;
      }
    }
  }

  // ----- what is read

  /** Some file on some route includes this path, and it can be followed there. */
  ghost predicate IsIncluded(w: World, at: Reached, path: Path)
    requires at.Valid()
  {
    exists route :: IncludesAt(w, at, route, path)
  }

  predicate IncludesAt(w: World, at: Reached, route: seq<nat>, path: Path)
    requires at.Valid()
  {
    var to := Destination(w, at, route);
    to.Some? && exists i | 0 <= i < |to.value.nodes| :: IsIncludeOf(w, to.value, to.value.nodes[i], path)
  }

  predicate IsIncludeOf(w: World, at: Reached, node: Node, path: Path)
    requires at.Valid()
  {
    CanFollow(w, at, node) && TargetPath(w, at, node.body.target) == Some(path)
  }

  lemma {:induction false} ReadByNode(w: World, nodes: seq<Node>, ctx: Context, seen: set<string>, path: Path)
    requires ctx.depth < RECURSION_LIMIT
    requires path in Reads(w, nodes, ctx, seen)
    ensures exists i :: 0 <= i < |nodes| && path in ReadsOfNode(w, nodes[i], ctx)
    decreases |nodes|
  {
    var rest := nodes[1..];
    assert forall i | 0 < i < |nodes| :: nodes[i] == rest[i - 1];
    if path !in ReadsOfNode(w, nodes[0], ctx) {
      ReadByNode(w, rest, ctx, if IsDuplicate(nodes[0], seen) then seen else Seen(nodes[0], seen), path);
    }
  }

  /** No node ends the file early, and no include is refused for its name. */
  predicate IsReadThrough(nodes: seq<Node>) {
    && (forall i | 0 <= i < |nodes| :: !nodes[i].fatal)
    && (forall i, j | 0 <= i < j < |nodes| :: nodes[j].body.Include? && nodes[i].name == nodes[j].name ==> IsMultipart(nodes[i].name))
  }

  /** Other errors than these do not matter for what is read. */
  ghost predicate AllReadThrough(w: World, at: Reached)
    requires at.Valid()
  {
    forall route | Destination(w, at, route).Some? :: IsReadThrough(Destination(w, at, route).value.nodes)
  }

  lemma ReadThroughBelow(w: World, at: Reached, i: nat)
    requires at.Valid() && i < |at.nodes| && CanFollow(w, at, at.nodes[i]) && AllReadThrough(w, at)
    ensures AllReadThrough(w, Follow(w, at, at.nodes[i]))
  {
    var to := Follow(w, at, at.nodes[i]);
    forall rest | Destination(w, to, rest).Some? ensures IsReadThrough(Destination(w, to, rest).value.nodes) {
      RouteStep(w, at, i, rest);
      assert Destination(w, at, [i] + rest).Some?;
    }
  }

  lemma FineIsReadThrough(w: World, at: Reached)
    requires at.Valid() && AllFine(w, at)
    ensures AllReadThrough(w, at)
  {
    forall route | Destination(w, at, route).Some? ensures IsReadThrough(Destination(w, at, route).value.nodes) {
      var to := Destination(w, at, route).value;
      assert IsFine(w, to);
      assert forall i | 0 <= i < |to.nodes| :: IsFineNode(w, to, to.nodes[i]);
    }
  }

  lemma {:induction false} NodeIsRead(w: World, nodes: seq<Node>, ctx: Context, seen: set<string>, i: nat, path: Path)
    requires ctx.depth < RECURSION_LIMIT && IsReadThrough(nodes)
    requires forall j | 0 <= j < |nodes| :: nodes[j].body.Include? ==> !IsDuplicate(nodes[j], seen)
    requires i < |nodes| && path in ReadsOfNode(w, nodes[i], ctx)
    ensures path in Reads(w, nodes, ctx, seen)
    decreases |nodes|
  {
    if i > 0 {
      var rest := nodes[1..];
      assert forall j | 0 <= j < |rest| :: rest[j] == nodes[j + 1];
      NodeIsRead(w, rest, ctx, if IsDuplicate(nodes[0], seen) then seen else Seen(nodes[0], seen), i - 1, path);
    }
  }

  lemma IncludedBelow(w: World, at: Reached, i: nat, path: Path)
    requires at.Valid() && i < |at.nodes| && CanFollow(w, at, at.nodes[i])
    requires IsIncluded(w, Follow(w, at, at.nodes[i]), path)
    ensures IsIncluded(w, at, path)
  {
    var rest :| IncludesAt(w, Follow(w, at, at.nodes[i]), rest, path);
    RouteStep(w, at, i, rest);
    assert IncludesAt(w, at, [i] + rest, path);
  }

  lemma {:induction false} ReadIsIncluded(w: World, at: Reached, path: Path)
    requires at.Valid() && path in Reads(w, at.nodes, ContextOf(at), {})
    ensures IsIncluded(w, at, path)
    decreases 10 - |at.trail|
  {
    ReadByNode(w, at.nodes, ContextOf(at), {}, path);
    var i :| 0 <= i < |at.nodes| && path in ReadsOfNode(w, at.nodes[i], ContextOf(at));
    EntersIffFollowed(w, at, at.nodes[i]);
    if IsIncludeOf(w, at, at.nodes[i], path) {
      assert Destination(w, at, []) == Some(at);
      assert IncludesAt(w, at, [], path);
    } else {
      ReadIsIncluded(w, Follow(w, at, at.nodes[i]), path);
      IncludedBelow(w, at, i, path);
    }
  }

  lemma {:induction false} IncludedIsRead(w: World, at: Reached, route: seq<nat>, path: Path)
    requires at.Valid() && AllReadThrough(w, at) && IncludesAt(w, at, route, path)
    ensures path in Reads(w, at.nodes, ContextOf(at), {})
    decreases |route|
  {
    assert Destination(w, at, []) == Some(at);
    if route == [] {
      var i :| 0 <= i < |at.nodes| && IsIncludeOf(w, at, at.nodes[i], path);
      EntersIffFollowed(w, at, at.nodes[i]);
      NodeIsRead(w, at.nodes, ContextOf(at), {}, i, path);
    } else {
      var i := route[0];
      EntersIffFollowed(w, at, at.nodes[i]);
      ReadThroughBelow(w, at, i);
      IncludedIsRead(w, Follow(w, at, at.nodes[i]), route[1..], path);
      NodeIsRead(w, at.nodes, ContextOf(at), {}, i, path);
    }
  }

  /** Only paths that are included on some route are read, and all of them unless a file ends early. */
  lemma ReadsAreIncluded(w: World, at: Reached, path: Path)
    requires at.Valid()
    ensures path in Reads(w, at.nodes, ContextOf(at), {}) ==> IsIncluded(w, at, path)
    ensures AllReadThrough(w, at) && IsIncluded(w, at, path) ==> path in Reads(w, at.nodes, ContextOf(at), {})
  {
    if path in Reads(w, at.nodes, ContextOf(at), {}) {
      ReadIsIncluded(w, at, path);
    }
    if AllReadThrough(w, at) && IsIncluded(w, at, path) {
      var route :| IncludesAt(w, at, route, path);
      IncludedIsRead(w, at, route, path);
    }
  }

  // ----- what is merged

  /** The sections that routes lead to, each with the length of the route. */
  ghost predicate IsFound(w: World, at: Reached, tagged: Tagged)
    requires at.Valid()
  {
    exists route :: FoundAt(w, at, route, tagged)
  }

  predicate FoundAt(w: World, at: Reached, route: seq<nat>, tagged: Tagged)
    requires at.Valid()
  {
    var to := Destination(w, at, route);
    && to.Some?
    && tagged.depth == |at.trail| - 1 + |route|
    && HasSection(to.value.nodes, tagged.section)
  }

  predicate HasSection(nodes: seq<Node>, section: Section) {
    exists i | 0 <= i < |nodes| :: nodes[i].body == Plain(section)
  }

  lemma {:induction false} MergedByNode(w: World, nodes: seq<Node>, ctx: Context, tagged: Tagged)
    requires ctx.depth < RECURSION_LIMIT
    requires tagged in Flatten(w, nodes, ctx)
    ensures exists i :: 0 <= i < |nodes| && tagged in FlattenNode(w, nodes[i], ctx)
    decreases |nodes|
  {
    assert forall i | 0 < i < |nodes| :: nodes[i] == nodes[1..][i - 1];
    if tagged !in FlattenNode(w, nodes[0], ctx) {
      MergedByNode(w, nodes[1..], ctx, tagged);
    }
  }

  lemma {:induction false} NodeIsMerged(w: World, nodes: seq<Node>, ctx: Context, i: nat, tagged: Tagged)
    requires ctx.depth < RECURSION_LIMIT && i < |nodes| && tagged in FlattenNode(w, nodes[i], ctx)
    ensures tagged in Flatten(w, nodes, ctx)
    decreases |nodes|
  {
    if i > 0 {
      assert nodes[i] == nodes[1..][i - 1];
      NodeIsMerged(w, nodes[1..], ctx, i - 1, tagged);
    }
  }

  lemma FoundBelow(w: World, at: Reached, i: nat, tagged: Tagged)
    requires at.Valid() && i < |at.nodes| && CanFollow(w, at, at.nodes[i])
    requires IsFound(w, Follow(w, at, at.nodes[i]), tagged)
    ensures IsFound(w, at, tagged)
  {
    var rest :| FoundAt(w, Follow(w, at, at.nodes[i]), rest, tagged);
    RouteStep(w, at, i, rest);
    assert FoundAt(w, at, [i] + rest, tagged);
  }

  lemma {:induction false} MergedIsFound(w: World, at: Reached, tagged: Tagged)
    requires at.Valid() && tagged in Flatten(w, at.nodes, ContextOf(at))
    ensures IsFound(w, at, tagged)
    decreases 10 - |at.trail|
  {
    MergedByNode(w, at.nodes, ContextOf(at), tagged);
    var i :| 0 <= i < |at.nodes| && tagged in FlattenNode(w, at.nodes[i], ContextOf(at));
    if at.nodes[i].body.Plain? {
      assert Destination(w, at, []) == Some(at) && FoundAt(w, at, [], tagged);
    } else {
      EntersIffFollowed(w, at, at.nodes[i]);
      MergedIsFound(w, Follow(w, at, at.nodes[i]), tagged);
      FoundBelow(w, at, i, tagged);
    }
  }

  lemma {:induction false} FoundIsMerged(w: World, at: Reached, route: seq<nat>, tagged: Tagged)
    requires at.Valid() && FoundAt(w, at, route, tagged)
    ensures tagged in Flatten(w, at.nodes, ContextOf(at))
    decreases |route|
  {
    if route == [] {
      var i :| 0 <= i < |at.nodes| && at.nodes[i].body == Plain(tagged.section);
      NodeIsMerged(w, at.nodes, ContextOf(at), i, tagged);
    } else {
      EntersIffFollowed(w, at, at.nodes[route[0]]);
      FoundIsMerged(w, Follow(w, at, at.nodes[route[0]]), route[1..], tagged);
      NodeIsMerged(w, at.nodes, ContextOf(at), route[0], tagged);
    }
  }

  /** Exactly the sections on the routes are merged, at the depth of their file. */
  lemma MergedIffFound(w: World, at: Reached, tagged: Tagged)
    requires at.Valid()
    ensures tagged in Flatten(w, at.nodes, ContextOf(at)) <==> IsFound(w, at, tagged)
  {
    if tagged in Flatten(w, at.nodes, ContextOf(at)) {
      MergedIsFound(w, at, tagged);
    }
    if IsFound(w, at, tagged) {
      var route :| FoundAt(w, at, route, tagged);
      FoundIsMerged(w, at, route, tagged);
    }
  }

  /** And in the order of the nodes: what comes first in a file is merged first. */
  lemma {:induction false} MergedInOrder(w: World, a: seq<Node>, b: seq<Node>, ctx: Context)
    requires ctx.depth < RECURSION_LIMIT
    ensures Flatten(w, a + b, ctx) == Flatten(w, a, ctx) + Flatten(w, b, ctx)
    decreases |a|
  {
    if a == [] {
      assert a + b == b;
    } else {
      assert (a + b)[0] == a[0] && (a + b)[1..] == a[1..] + b;
      MergedInOrder(w, a[1..], b, ctx);
    }
  }

  // ----- loading a config

  function MainFile(path: Path, nodes: seq<Node>): Reached {
    Reached(nodes, [path])
  }

  /** What `Parse` promises, in terms of the routes from the main file. */
  lemma LoadingFollowsRoutes(w: World, path: Path, nodes: seq<Node>)
    ensures var main, ctx := MainFile(path, nodes), RootContext(path);
      && (IsClean(w, nodes, ctx, {}) <==> AllFine(w, main))
      && (AllFine(w, main) ==> AllReadThrough(w, main))
      && (forall p :: p in Reads(w, nodes, ctx, {}) ==> IsIncluded(w, main, p))
      && (AllReadThrough(w, main) ==> forall p :: IsIncluded(w, main, p) ==> p in Reads(w, nodes, ctx, {}))
      && (forall t :: t in Flatten(w, nodes, ctx) <==> IsFound(w, main, t))
  {
    var main := MainFile(path, nodes);
    assert RootContext(path) == ContextOf(main);
    LoadsIff(w, main);
    if AllFine(w, main) {
      FineIsReadThrough(w, main);
    }
    forall p
      ensures p in Reads(w, nodes, RootContext(path), {}) ==> IsIncluded(w, main, p)
      ensures AllReadThrough(w, main) && IsIncluded(w, main, p) ==> p in Reads(w, nodes, RootContext(path), {})
    {
      ReadsAreIncluded(w, main, p);
    }
    forall t ensures t in Flatten(w, nodes, RootContext(path)) <==> IsFound(w, main, t) {
      MergedIffFound(w, main, t);
    }
  }

  /** With absolute main and home directories, no path is ever looked up relative to anything else. */
  lemma {:induction false} IncludedPathsAreAbsolute(w: World, at: Reached, route: seq<nat>, path: Path)
    requires at.Valid() && at.Directory().absolute && (w.home.Some? ==> w.home.value.absolute)
    requires IncludesAt(w, at, route, path)
    ensures path.absolute
    decreases |route|
  {
    if route != [] {
      IncludedPathsAreAbsolute(w, Follow(w, at, at.nodes[route[0]]), route[1..], path);
    }
  }

  /** The names that may repeat are those of sections that add to a list, and `include`. */
  lemma RepeatableNames(name: string)
    ensures IsMultipart(name) <==> name == "include" || exists kind: ListKind :: SectionName(kind) == Some(name)
  {
    assert SectionName(ListKind.Outputs) == Some("output");
    assert SectionName(SpawnAtStartup) == Some("spawn-at-startup");
    assert SectionName(SpawnShAtStartup) == Some("spawn-sh-at-startup");
    assert SectionName(WindowRules) == Some("window-rule");
    assert SectionName(LayerRules) == Some("layer-rule");
    assert SectionName(Workspaces) == Some("workspace");
  }

  /** The section that adds one item to a list. */
  function SectionName(kind: ListKind): Option<string> {
    match kind
    case Outputs => Some("output")
    case SpawnAtStartup => Some("spawn-at-startup")
    case SpawnShAtStartup => Some("spawn-sh-at-startup")
    case WindowRules => Some("window-rule")
    case LayerRules => Some("layer-rule")
    case Workspaces => Some("workspace")
    case _ => None
  }
}

/**
  Loading a config file and the files it includes.

  The file system is any function from paths to read results, so the include graph may be cyclic
  or even infinite. The interpreter merges sections into one shared config while it walks the
  files; the specification flattens the files first and folds the merges over the result.
 */
module ConfigIncludes {
  import opened Options
  import opened ConfigBinds
  import opened ConfigSections

  const RECURSION_LIMIT: nat := 10

  datatype Path = Path(absolute: bool, parts: seq<string>) {
    function Join(other: Path): Path {
      if other.absolute then other else Path(absolute, parts + other.parts)
    }

    predicate HasFileName() {
      parts != [] && parts[|parts| - 1] != ".."
    }

    function Parent(): Path {
      if parts == [] then Path(false, []) else Path(absolute, parts[..|parts| - 1])
    }
  }

  /** The argument of an include: below the home directory, or relative to the including file. */
  datatype Target = Home(rest: seq<string>) | Here(path: Path)

  datatype Body =
    | Plain(section: Section)
    | Include(target: Target, optional: bool)
    | Unknown(name: string)

  /**
    A top-level node. Decoding it may report errors and go on (`emits`), or fail and end the
    decoding of its file (`fatal`).
   */
  datatype Node = Node(name: string, body: Body, emits: bool, fatal: bool)

  datatype ReadResult = NotFound | ReadError | Text(nodes: Option<seq<Node>>)

  type FileSystem = Path -> ReadResult

  datatype World = World(files: FileSystem, home: Option<Path>)

  /** What the decoder of one file knows about where it is. */
  datatype Context = Context(base: Path, depth: nat, stack: set<Path>)

  /** Only these may appear more than once in a file. */
  predicate IsMultipart(name: string) {
    name in {"output", "spawn-at-startup", "spawn-sh-at-startup", "window-rule", "layer-rule", "workspace", "include"}
  }

  predicate IsDuplicate(node: Node, seen: set<string>) {
    !IsMultipart(node.name) && node.name in seen
  }

  function Seen(node: Node, seen: set<string>): set<string> {
    if IsMultipart(node.name) then seen else seen + {node.name}
  }

  function ResolvedPath(w: World, base: Path, target: Target): Option<Path> {
    match target
    case Home(rest) => if w.home.Some? then Some(w.home.value.Join(Path(false, rest))) else None
    case Here(path) => Some(base.Join(path))
  }

  /** The context an include is decoded in, unless it is refused before anything is read. */
  function Enter(w: World, ctx: Context, target: Target): Option<(Path, Context)> {
    var path := ResolvedPath(w, ctx.base, target);
    if path.None? || ctx.depth + 1 == RECURSION_LIMIT || !path.value.HasFileName() || path.value in ctx.stack then None
    else Some((path.value, Context(path.value.Parent(), ctx.depth + 1, ctx.stack + {path.value})))
  }

  /** The nodes of the file that an include enters. */
  function NodesOf(read: ReadResult): seq<Node> {
    if read.Text? && read.nodes.Some? then read.nodes.value else []
  }

  function Children(section: Section): seq<BindNode> {
    match section
    case Binds(children) => children
    case RecentWindows(_, Some(children)) => children
    case _ => []
  }

  // ----- the specification

  /** The sections of a file with its includes expanded in place, tagged with their depth. */
  function Flatten(w: World, nodes: seq<Node>, ctx: Context): seq<Tagged>
    requires ctx.depth < RECURSION_LIMIT
    decreases RECURSION_LIMIT - ctx.depth, |nodes|
  {
    if nodes == [] then []
    else FlattenNode(w, nodes[0], ctx) + Flatten(w, nodes[1..], ctx)
  }

  function FlattenNode(w: World, node: Node, ctx: Context): seq<Tagged>
    requires ctx.depth < RECURSION_LIMIT
    decreases RECURSION_LIMIT - ctx.depth, 0
  {
    match node.body
    case Plain(section) => [Tagged(ctx.depth, section)]
    case Unknown(_) => []
    case Include(target, _) =>
      var entered := Enter(w, ctx, target);
      if entered.None? then [] else Flatten(w, NodesOf(w.files(entered.value.0)), entered.value.1)
  }

  /** No error anywhere in the file or in what it includes. */
  predicate IsClean(w: World, nodes: seq<Node>, ctx: Context, seen: set<string>)
    requires ctx.depth < RECURSION_LIMIT
    decreases RECURSION_LIMIT - ctx.depth, |nodes|
  {
    nodes == [] ||
    (!IsDuplicate(nodes[0], seen) && IsCleanNode(w, nodes[0], ctx) && IsClean(w, nodes[1..], ctx, Seen(nodes[0], seen)))
  }

  predicate IsCleanNode(w: World, node: Node, ctx: Context)
    requires ctx.depth < RECURSION_LIMIT
    decreases RECURSION_LIMIT - ctx.depth, 0
  {
    !node.emits && !node.fatal &&
    match node.body
    case Plain(section) => IsCleanSection(Children(section))
    case Unknown(_) => false
    case Include(target, optional) =>
      var entered := Enter(w, ctx, target);
      entered.Some? && IsCleanRead(w, w.files(entered.value.0), optional, entered.value.1)
  }

  /** An include is fine if the file loads without errors, or if it is optional and missing. */
  predicate IsCleanRead(w: World, read: ReadResult, optional: bool, ctx: Context)
    requires ctx.depth < RECURSION_LIMIT
    decreases RECURSION_LIMIT - ctx.depth, |NodesOf(read)| + 1
  {
    match read
    case NotFound => optional
    case ReadError => false
    case Text(None) => false
    case Text(Some(nodes)) => IsClean(w, nodes, ctx, {})
  }

  /** The included files that are read, in order, whether or not anything goes wrong. */
  function Reads(w: World, nodes: seq<Node>, ctx: Context, seen: set<string>): seq<Path>
    requires ctx.depth < RECURSION_LIMIT
    decreases RECURSION_LIMIT - ctx.depth, |nodes|
  {
    if nodes == [] then []
    else if IsDuplicate(nodes[0], seen) then Reads(w, nodes[1..], ctx, seen)
    else if nodes[0].fatal then []
    else ReadsOfNode(w, nodes[0], ctx) + Reads(w, nodes[1..], ctx, Seen(nodes[0], seen))
  }

  function ReadsOfNode(w: World, node: Node, ctx: Context): seq<Path>
    requires ctx.depth < RECURSION_LIMIT
    decreases RECURSION_LIMIT - ctx.depth, 0
  {
    if !node.body.Include? then []
    else
      var entered := Enter(w, ctx, node.body.target);
      if entered.None? then []
      else [entered.value.0] + Reads(w, NodesOf(w.files(entered.value.0)), entered.value.1, {})
  }

  function RootContext(path: Path): Context {
    Context(path.Parent(), 0, {path})
  }

  // ----- properties of the specification

  lemma {:induction false} FlattenStaysShallow(w: World, nodes: seq<Node>, ctx: Context)
    requires ctx.depth < RECURSION_LIMIT
    ensures forall t | t in Flatten(w, nodes, ctx) :: ctx.depth <= t.depth < RECURSION_LIMIT
    decreases RECURSION_LIMIT - ctx.depth, |nodes|
  {
    if nodes != [] {
      FlattenStaysShallow(w, nodes[1..], ctx);
      if nodes[0].body.Include? {
        var entered := Enter(w, ctx, nodes[0].body.target);
        if entered.Some? {
          FlattenStaysShallow(w, NodesOf(w.files(entered.value.0)), entered.value.1);
        }
      }
    }
  }

  /** The file at `base` has a required include of a file in `into`. */
  ghost predicate RequiresOneOf(w: World, base: Path, nodes: seq<Node>, into: iset<Path>) {
    exists i :: 0 <= i < |nodes| && RequiresInto(w, base, nodes[i], into)
  }

  ghost predicate RequiresInto(w: World, base: Path, node: Node, into: iset<Path>) {
    && node.body.Include? && !node.body.optional
    && var path := ResolvedPath(w, base, node.body.target);
       path.Some? && path.value in into
  }

  /** Every file here that can be read requires another one of them: a cycle, or an endless chain. */
  ghost predicate IsEndless(w: World, files: iset<Path>) {
    forall p | p in files && w.files(p).Text? && w.files(p).nodes.Some? ::
      RequiresOneOf(w, p.Parent(), w.files(p).nodes.value, files)
  }

  lemma {:induction false} CleanFileHasCleanNodes(w: World, nodes: seq<Node>, ctx: Context, seen: set<string>, i: nat)
    requires ctx.depth < RECURSION_LIMIT && i < |nodes|
    requires IsClean(w, nodes, ctx, seen)
    ensures IsCleanNode(w, nodes[i], ctx)
    decreases i
  {
    if i > 0 {
      CleanFileHasCleanNodes(w, nodes[1..], ctx, Seen(nodes[0], seen), i - 1);
    }
  }

  /** A file that requires a cycle, or any endless chain of files, does not load. */
  lemma {:induction false} EndlessIncludesFail(w: World, nodes: seq<Node>, ctx: Context, seen: set<string>, files: iset<Path>)
    requires ctx.depth < RECURSION_LIMIT
    requires IsEndless(w, files) && RequiresOneOf(w, ctx.base, nodes, files)
    ensures !IsClean(w, nodes, ctx, seen)
    decreases RECURSION_LIMIT - ctx.depth
  {
    var i :| 0 <= i < |nodes| && RequiresInto(w, ctx.base, nodes[i], files);
    if IsClean(w, nodes, ctx, seen) {
      CleanFileHasCleanNodes(w, nodes, ctx, seen, i);
      var (path, inner) := Enter(w, ctx, nodes[i].body.target).value;
      EndlessIncludesFail(w, w.files(path).nodes.value, inner, {}, files);
    }
  }

  /** One step into the rest of a file. */
  lemma UnrollFile(w: World, nodes: seq<Node>, ctx: Context, seen: set<string>, i: nat)
    requires ctx.depth < RECURSION_LIMIT && i < |nodes|
    ensures var node, rest := nodes[i], nodes[i + 1..];
      && (IsClean(w, nodes[i..], ctx, seen) <==>
            !IsDuplicate(node, seen) && IsCleanNode(w, node, ctx) && IsClean(w, rest, ctx, Seen(node, seen)))
      && Flatten(w, nodes[i..], ctx) == FlattenNode(w, node, ctx) + Flatten(w, rest, ctx)
      && Reads(w, nodes[i..], ctx, seen) ==
           (if IsDuplicate(node, seen) then Reads(w, rest, ctx, seen)
            else if node.fatal then []
            else ReadsOfNode(w, node, ctx) + Reads(w, rest, ctx, Seen(node, seen)))
  {
    assert nodes[i..][0] == nodes[i] && nodes[i..][1..] == nodes[i + 1..];
  }

  /** Where the decoding of a file stands after some of its nodes. */
  datatype Progress = Progress(ok: bool, seen: set<string>, loaded: Loading, done: seq<Path>)

  /** The nodes from `i` on lead from `p` to what the whole file leads to from `start`. */
  ghost predicate OnTrack(w: World, nodes: seq<Node>, ctx: Context, start: Loading, i: nat, p: Progress)
    requires ctx.depth < RECURSION_LIMIT && i <= |nodes|
  {
    && (IsClean(w, nodes, ctx, {}) <==> p.ok && IsClean(w, nodes[i..], ctx, p.seen))
    && (p.ok ==> Fold(start, Flatten(w, nodes, ctx)) == Fold(p.loaded, Flatten(w, nodes[i..], ctx)))
    && Reads(w, nodes, ctx, {}) == p.done + Reads(w, nodes[i..], ctx, p.seen)
  }

  lemma TrackStarts(w: World, nodes: seq<Node>, ctx: Context, start: Loading)
    requires ctx.depth < RECURSION_LIMIT
    ensures OnTrack(w, nodes, ctx, start, 0, Progress(true, {}, start, []))
  {
    assert nodes[0..] == nodes;
  }

  lemma TrackEnds(w: World, nodes: seq<Node>, ctx: Context, start: Loading, p: Progress)
    requires ctx.depth < RECURSION_LIMIT && OnTrack(w, nodes, ctx, start, |nodes|, p)
    ensures IsClean(w, nodes, ctx, {}) <==> p.ok
    ensures p.ok ==> Fold(start, Flatten(w, nodes, ctx)) == p.loaded
    ensures Reads(w, nodes, ctx, {}) == p.done
  {
    assert nodes[|nodes|..] == [];
  }

  lemma DuplicateIsSkipped(w: World, nodes: seq<Node>, ctx: Context, start: Loading, i: nat, p: Progress)
    requires ctx.depth < RECURSION_LIMIT && i < |nodes| && OnTrack(w, nodes, ctx, start, i, p)
    requires IsDuplicate(nodes[i], p.seen)
    ensures OnTrack(w, nodes, ctx, start, i + 1, p.(ok := false))
  {
    assert nodes[i..][0] == nodes[i] && nodes[i..][1..] == nodes[i + 1..];
  }

  lemma FatalNodeEndsFile(w: World, nodes: seq<Node>, ctx: Context, start: Loading, i: nat, p: Progress)
    requires ctx.depth < RECURSION_LIMIT && i < |nodes| && OnTrack(w, nodes, ctx, start, i, p)
    requires !IsDuplicate(nodes[i], p.seen) && nodes[i].fatal
    ensures !IsClean(w, nodes, ctx, {}) && Reads(w, nodes, ctx, {}) == p.done
  {
    UnrollFile(w, nodes, ctx, p.seen, i);
    assert !IsCleanNode(w, nodes[i], ctx);
  }

  lemma DecodedNodeStaysOnTrack(
      w: World, nodes: seq<Node>, ctx: Context, start: Loading, i: nat, p: Progress, clean: bool, loaded: Loading)
    requires ctx.depth < RECURSION_LIMIT && i < |nodes| && OnTrack(w, nodes, ctx, start, i, p)
    requires !IsDuplicate(nodes[i], p.seen) && !nodes[i].fatal
    requires clean <==> IsCleanNode(w, nodes[i], ctx)
    requires clean ==> loaded == Fold(p.loaded, FlattenNode(w, nodes[i], ctx))
    ensures OnTrack(w, nodes, ctx, start, i + 1,
      Progress(p.ok && clean, Seen(nodes[i], p.seen), loaded, p.done + ReadsOfNode(w, nodes[i], ctx)))
  {
    UnrollFile(w, nodes, ctx, p.seen, i);
    FoldOfRest(p.loaded, loaded, FlattenNode(w, nodes[i], ctx), Flatten(w, nodes[i + 1..], ctx), clean);
  }

  lemma FoldOfRest(before: Loading, after: Loading, first: seq<Tagged>, rest: seq<Tagged>, merged: bool)
    requires merged ==> after == Fold(before, first)
    ensures merged ==> Fold(before, first + rest) == Fold(after, rest)
  {
    FoldAppend(before, first, rest);
  }

  // ----- the interpreter

  class ConfigLoader {
    const world: World
    var config: Config
    var sawMruBinds: bool
    /** The paths to watch. */
    var includes: seq<Path>
    /** Every path that was looked up in the file system. */
    ghost var read: seq<Path>

    constructor (world: World, defaults: Config)
      ensures this.world == world && Loaded() == Loading(defaults, false) && includes == [] && read == []
    {
      this.world := world;
      config, sawMruBinds, includes, read := defaults, false, [], [];
    }

    function Loaded(): Loading
      reads this
    {
      Loading(config, sawMruBinds)
    }

    method ReadFile(path: Path) returns (result: ReadResult)
      modifies `read
      ensures result == world.files(path) && read == old(read) + [path]
    {
      result := world.files(path);
      read := read + [path];
    }

    /** Merges one section; `clean` is false if its binds were not. */
    method Merge(depth: nat, section: Section) returns (clean: bool)
      modifies `config, `sawMruBinds
      ensures Loaded() == MergeSection(old(Loaded()), Tagged(depth, section))
      ensures clean <==> IsCleanSection(Children(section))
    {
      clean := true;
      match section {
        case Binds(children) =>
          var part;
          part, clean := DecodeBinds(children);
          config := config.(binds := Override(config.binds, part));
        case RecentWindows(part, None) =>
          config := config.(settings := WithProperties(config, "recent-windows", part));
        case RecentWindows(part, Some(children)) =>
          var binds;
          binds, clean := DecodeBinds(children);
          if !sawMruBinds {
            sawMruBinds := true;
            config := config.(recentBinds := []);
          }
          config := config.(settings := WithProperties(config, "recent-windows", part));
          config := config.(recentBinds := Override(config.recentBinds, binds));
        case _ =>
          config := MergeSection(Loaded(), Tagged(depth, section)).config;
      }
    }

    /** Decodes the nodes of one file; `ok` is false if it or anything it includes had an error. */
    method DecodeChildren(nodes: seq<Node>, ctx: Context) returns (ok: bool)
      requires ctx.depth < RECURSION_LIMIT
      modifies this
      ensures ok <==> IsClean(world, nodes, ctx, {})
      ensures ok ==> Loaded() == Fold(old(Loaded()), Flatten(world, nodes, ctx))
      ensures includes == old(includes) + Reads(world, nodes, ctx, {})
      ensures read == old(read) + Reads(world, nodes, ctx, {})
      decreases RECURSION_LIMIT - ctx.depth, 2
    {
      ok := true;
      var seen: set<string> := {};
      ghost var start, done := Loaded(), [];
      TrackStarts(world, nodes, ctx, start);
      for i := 0 to |nodes|
        invariant OnTrack(world, nodes, ctx, start, i, Progress(ok, seen, Loaded(), done))
        invariant includes == old(includes) + done && read == old(read) + done
      {
        var node := nodes[i];
        ghost var progress := Progress(ok, seen, Loaded(), done);
        if IsDuplicate(node, seen) {
          DuplicateIsSkipped(world, nodes, ctx, start, i, progress);
          ok := false;
          continue;
        }
        seen := Seen(node, seen);
        if node.fatal {
          FatalNodeEndsFile(world, nodes, ctx, start, i, progress);
          return false;
        }
        var clean := DecodeNode(node, ctx);
        DecodedNodeStaysOnTrack(world, nodes, ctx, start, i, progress, clean, Loaded());
        done := done + ReadsOfNode(world, node, ctx);
        ok := ok && clean;
      }
      TrackEnds(world, nodes, ctx, start, Progress(ok, seen, Loaded(), done));
    }

    method DecodeNode(node: Node, ctx: Context) returns (clean: bool)
      requires ctx.depth < RECURSION_LIMIT && !node.fatal
      modifies this
      ensures clean <==> IsCleanNode(world, node, ctx)
      ensures clean ==> Loaded() == Fold(old(Loaded()), FlattenNode(world, node, ctx))
      ensures includes == old(includes) + ReadsOfNode(world, node, ctx)
      ensures read == old(read) + ReadsOfNode(world, node, ctx)
      decreases RECURSION_LIMIT - ctx.depth, 1
    {
      clean := !node.emits;
      match node.body {
        case Plain(section) =>
          var cleanSection := Merge(ctx.depth, section);
          clean := clean && cleanSection;
        case Unknown(_) =>
          clean := false;
        case Include(target, optional) =>
          var cleanInclude := DecodeInclude(target, optional, ctx);
          clean := clean && cleanInclude;
      }
    }

    method DecodeInclude(target: Target, optional: bool, ctx: Context) returns (clean: bool)
      requires ctx.depth < RECURSION_LIMIT
      modifies this
      ensures var node := Node("include", Include(target, optional), false, false);
        && (clean <==> IsCleanNode(world, node, ctx))
        && (clean ==> Loaded() == Fold(old(Loaded()), FlattenNode(world, node, ctx)))
        && includes == old(includes) + ReadsOfNode(world, node, ctx)
        && read == old(read) + ReadsOfNode(world, node, ctx)
      decreases RECURSION_LIMIT - ctx.depth, 0
    {
      var resolved := ResolvedPath(world, ctx.base, target);
      if resolved.None? {
        return false;
      }
      var path, depth := resolved.value, ctx.depth + 1;
      if depth == RECURSION_LIMIT {
        return false;
      }
      if !path.HasFileName() {
        return false;
      }
      if path in ctx.stack {
        return false;
      }
      clean := DecodeIncluded(path, optional, Context(path.Parent(), depth, ctx.stack + {path}));
    }

    /** Reads a file that was entered and decodes it in its own context. */
    method DecodeIncluded(path: Path, optional: bool, inner: Context) returns (clean: bool)
      requires inner.depth < RECURSION_LIMIT
      modifies this
      ensures clean <==> IsCleanRead(world, world.files(path), optional, inner)
      ensures clean ==> Loaded() == Fold(old(Loaded()), Flatten(world, NodesOf(world.files(path)), inner))
      ensures includes == old(includes) + ([path] + Reads(world, NodesOf(world.files(path)), inner, {}))
      ensures read == old(read) + ([path] + Reads(world, NodesOf(world.files(path)), inner, {}))
      decreases RECURSION_LIMIT - inner.depth, 3
    {
      // Remembered even if it cannot be read, so that it gets watched.
      includes := includes + [path];
      var result := ReadFile(path);
      match result {
        case NotFound =>
          return optional;
        case ReadError =>
          return false;
        case Text(None) =>
          return false;
        case Text(Some(nodes)) =>
          clean := DecodeChildren(nodes, inner);
      }
    }
  }

  datatype ParseResult = ParseResult(config: Option<Config>, includes: seq<Path>)

  /**
    Loading terminates for any file system. It succeeds exactly when no file has an error, and the
    config is then the fold of the merges over the flattened files. Every included file that was
    read is in the list to watch, also after an error.
   */
  method Parse(world: World, defaults: Config, path: Path, text: Option<seq<Node>>) returns (result: ParseResult)
    ensures result.config.Some? <==> text.Some? && IsClean(world, text.value, RootContext(path), {})
    ensures result.config.Some? ==>
      result.config.value == Fold(Loading(defaults, false), Flatten(world, text.value, RootContext(path))).config
    ensures result.includes == if text.Some? then Reads(world, text.value, RootContext(path), {}) else []
  {
    var loader := new ConfigLoader(world, defaults);
    var ok := false;
    if text.Some? {
      ok := loader.DecodeChildren(text.value, RootContext(path));
    }
    result := ParseResult(if ok then Some(loader.config) else None, loader.includes);
  }
}

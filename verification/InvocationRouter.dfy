// Routing of typed words over a command tree: execution, help and completion
// walk the same tree and agree on every public path.

module InvocationRouter {
  import opened Options
  import opened CommandTree
  import opened CompletionDispatch

  datatype Invocation =
    | Execute(node: Node)
    | Help(node: Node)
    | PathError(typed: seq<string>, helpNode: Node)
    | Incomplete(typed: seq<string>, helpNode: Node)

  function Walk(n: Node, path: seq<string>): Option<Node>
    decreases |path|
  {
    if path == [] then Some(n)
    else match FindChild(n.children, path[0])
      case Some(c) => Walk(c, path[1..])
      case None => None
  }

  /** The node a path reaches without meeting a hidden child. */
  function PublicWalk(n: Node, path: seq<string>): Option<Node>
    decreases |path|
  {
    if path == [] then Some(n)
    else match FindChild(n.children, path[0])
      case Some(c) => if c.hidden then None else PublicWalk(c, path[1..])
      case None => None
  }

  lemma {:induction false} WalkSplits(n: Node, a: seq<string>, b: seq<string>)
    ensures Walk(n, a + b) == if Walk(n, a).Some? then Walk(Walk(n, a).value, b) else None
    decreases |a|
  {
    if a == [] {
      assert a + b == b;
    } else {
      assert (a + b)[1..] == a[1..] + b;
      var c := FindChild(n.children, a[0]);
      if c.Some? { WalkSplits(c.value, a[1..], b); }
    }
  }

  function WithoutRoot(root: Node, path: seq<string>): seq<string> {
    if path != [] && path[0] == root.name then path[1..] else path
  }

  method FindCommandNode(root: Node, path: seq<string>) returns (r: Option<Node>)
    ensures r == Walk(root, WithoutRoot(root, path))
    ensures r == if path != [] && path[0] == root.name then Walk(root, path[1..]) else Walk(root, path)
  {
    var segments := WithoutRoot(root, path);
    var node := root;
    for i := 0 to |segments|
      invariant Walk(root, segments[..i]) == Some(node)
    {
      var child := FindChild(node.children, segments[i]);
      WalkSplits(root, segments[..i], segments[i..]);
      assert segments[..i] + segments[i..] == segments;
      if child.None? { return None; }
      WalkSplits(root, segments[..i], [segments[i]]);
      assert segments[..i] + [segments[i]] == segments[..i + 1];
      node := child.value;
    }
    assert segments[..|segments|] == segments;
    r := Some(node);
  }

  ghost predicate IsCatalog(root: Node) { Built(root, []) && Accepted(root) }

  lemma {:induction false} PathLeadsToNode(r: Node, parent: seq<string>, n: Node)
    requires Built(r, parent) && Accepted(r) && InTree(r, n)
    ensures r.path <= n.path && Walk(r, n.path[|r.path|..]) == Some(n)
    decreases r
  {
    hide NodeOk, MetadataOk, FindChild;
    if n == r {
      assert n.path[|r.path|..] == [];
    } else {
      var i :| 0 <= i < |r.children| && InTree(r.children[i], n);
      var c := r.children[i];
      PathLeadsToNode(c, r.path, n);
      ChildIsFound(r, c);
      var tail := n.path[|r.path|..];
      assert tail == [c.name] + n.path[|c.path|..];
      assert tail[0] == c.name && tail[1..] == n.path[|c.path|..];
    }
  }

  lemma ChildIsFound(n: Node, c: Node)
    requires NodeOk(n) && c in n.children
    ensures FindChild(n.children, c.name) == Some(c)
  {
    NamesAreUnique(n, c);
  }

  /** Looking a node up by its own path finds exactly it. */
  lemma LookupInvertsPath(root: Node, n: Node)
    requires IsCatalog(root) && InTree(root, n)
    ensures Walk(root, WithoutRoot(root, n.path)) == Some(n)
  {
    PathLeadsToNode(root, [], n);
  }

  predicate LacksChild(n: Node, name: string) { forall c :: c in n.children ==> c.name != name }

  /** A lookup finds only the node at the end of the path: every name of it leads to a child. */
  lemma {:induction false} LookupFindsThePath(n: Node, parent: seq<string>, path: seq<string>)
    requires Built(n, parent)
    ensures Walk(n, path).Some? ==> InTree(n, Walk(n, path).value) && Walk(n, path).value.path == n.path + path
    ensures Walk(n, path).None? ==>
      exists k: nat :: k < |path| && Walk(n, path[..k]).Some? && LacksChild(Walk(n, path[..k]).value, path[k])
    decreases |path|
  {
    if path != [] {
      assert path[..0] == [];
      var child := FindChild(n.children, path[0]);
      if child.Some? {
        var c, rest := child.value, path[1..];
        LookupFindsThePath(c, n.path, rest);
        assert path == [path[0]] + rest;
        if Walk(c, rest).None? {
          var k: nat :| k < |rest| && Walk(c, rest[..k]).Some? && LacksChild(Walk(c, rest[..k]).value, rest[k]);
          assert path[..k + 1][1..] == rest[..k] && path[k + 1] == rest[k];
          assert Walk(n, path[..k + 1]) == Walk(c, rest[..k]);
        }
      }
    }
  }

  // ----- Help -----

  /** The last group entered on the way along the public part of the path. */
  function NearestGroup(n: Node, near: Node, path: seq<string>): Node
    decreases |path|
  {
    if path == [] then near
    else match FindChild(n.children, path[0])
      case None => near
      case Some(c) => if c.hidden then near else NearestGroup(c, if c.kind.Leaf? then near else c, path[1..])
  }

  /** Help accepts exactly the public paths and otherwise points to the nearest group. */
  method ResolveHelpPath(root: Node, path: seq<string>) returns (r: Invocation)
    ensures match PublicWalk(root, path)
      case Some(n) => r == Help(n)
      case None => r == PathError(path, NearestGroup(root, root, path))
  {
    var node, nearest := root, root;
    for i := 0 to |path|
      invariant PublicWalk(root, path) == PublicWalk(node, path[i..])
      invariant NearestGroup(root, root, path) == NearestGroup(node, nearest, path[i..])
    {
      var child := FindChild(node.children, path[i]);
      assert path[i..][1..] == path[i + 1..];
      if child.None? || child.value.hidden { return PathError(path, nearest); }
      node := child.value;
      if !node.kind.Leaf? { nearest := node; }
    }
    r := Help(node);
  }

  lemma {:induction false} NearestGroupFrom(n: Node, near: Node, path: seq<string>) returns (k: nat)
    ensures k <= |path|
    ensures if k == 0 then NearestGroup(n, near, path) == near
            else PublicWalk(n, path[..k]) == Some(NearestGroup(n, near, path)) && !NearestGroup(n, near, path).kind.Leaf?
    ensures forall j: nat :: k < j <= |path| && PublicWalk(n, path[..j]).Some? ==> PublicWalk(n, path[..j]).value.kind.Leaf?
    decreases |path|
  {
    k := 0;
    if path != [] {
      var child := FindChild(n.children, path[0]);
      if child.Some? && !child.value.hidden {
        var c := child.value;
        var below := NearestGroupFrom(c, if c.kind.Leaf? then near else c, path[1..]);
        k := if below > 0 then below + 1 else if c.kind.Leaf? then 0 else 1;
        forall j: nat | 0 < j <= |path| ensures PublicWalk(n, path[..j]) == PublicWalk(c, path[1..][..j - 1]) {
          assert path[..j][1..] == path[1..][..j - 1];
        }
      }
    }
  }

  /** The nearest group is the last node other than a leaf that the path reaches publicly, or the root. */
  lemma NearestGroupIsDeepest(root: Node, path: seq<string>)
    ensures exists k: nat :: k <= |path|
              && PublicWalk(root, path[..k]) == Some(NearestGroup(root, root, path))
              && (k > 0 ==> !NearestGroup(root, root, path).kind.Leaf?)
              && forall j: nat :: k < j <= |path| && PublicWalk(root, path[..j]).Some? ==> PublicWalk(root, path[..j]).value.kind.Leaf?
  {
    var k := NearestGroupFrom(root, root, path);
    assert path[..0] == [];
  }

  // ----- Execution -----

  /** Hidden commands that internal callers may execute all the same. */
  predicate InternalExecutable(root: Node, n: Node, c: Node) {
    || (n == root && c.name == "internal")
    || (Join(n.path) == "yui config completion" && c.name == "candidates")
    || (Join(n.path) == "yui task run" && (c.name == "checkpoint" || c.name == "context"))
    || (Join(n.path) == "yui controller" && (c.name == "identity" || c.name == "live-identity"))
  }

  predicate Enters(root: Node, n: Node, r: Option<Node>) {
    r.Some? && (!r.value.hidden || InternalExecutable(root, n, r.value))
  }

  /** Where execution ends from node n with words i.. still to read. */
  function Executed(root: Node, n: Node, near: Node, args: seq<string>, i: nat): Invocation
    requires i <= |args|
    decreases |args| - i
  {
    if i == |args| then (if n.kind.Group? then Incomplete(args, n) else Execute(n))
    else if n.kind.Leaf? then Execute(n)
    else
      var child := FindChild(n.children, args[i]);
      if Enters(root, n, child) then
        Executed(root, child.value, if child.value.kind.Leaf? then near else child.value, args, i + 1)
      else if n.kind.Hybrid? && n.acceptsArguments then Execute(n)
      else PathError(args[..i + 1], near)
  }

  method ResolveExecutionPath(root: Node, args: seq<string>) returns (r: Invocation)
    ensures r == Executed(root, root, root, args, 0)
  {
    var node, nearest := root, root;
    var index := 0;
    while index < |args|
      invariant 0 <= index <= |args|
      invariant Executed(root, root, root, args, 0) == Executed(root, node, nearest, args, index)
    {
      if node.kind.Leaf? { break; }
      var child := FindChild(node.children, args[index]);
      if !Enters(root, node, child) {
        if node.kind.Hybrid? && node.acceptsArguments { break; }
        return PathError(args[..index + 1], nearest);
      }
      node := child.value;
      index := index + 1;
      if !node.kind.Leaf? { nearest := node; }
    }
    if node.kind.Group? && index == |args| { return Incomplete(args, node); }
    r := Execute(node);
  }

  method RouteInvocation(root: Node, args: seq<string>) returns (r: Invocation)
    ensures args == [] ==> r == Execute(root)
    ensures args != [] && args[0] == "help" ==>
      r == if PublicWalk(root, args[1..]).Some? then Help(PublicWalk(root, args[1..]).value)
           else PathError(args[1..], NearestGroup(root, root, args[1..]))
    ensures args != [] && args[0] != "help" ==> r == Executed(root, root, root, args, 0)
  {
    if args == [] { return Execute(root); }
    if args[0] == "help" {
      r := ResolveHelpPath(root, args[1..]);
    } else {
      r := ResolveExecutionPath(root, args);
    }
  }

  /** A public path executes the very node it names, or is incomplete when that node is a group. */
  lemma {:induction false} PublicPathExecutes(root: Node, n: Node, parent: seq<string>, near: Node, args: seq<string>, i: nat)
    requires Built(n, parent) && i <= |args| && PublicWalk(n, args[i..]).Some?
    ensures var m := PublicWalk(n, args[i..]).value;
            Executed(root, n, near, args, i) == if m.kind.Group? then Incomplete(args, m) else Execute(m)
    decreases |args| - i
  {
    if i < |args| {
      var c := FindChild(n.children, args[i]).value;
      assert args[i..][1..] == args[i + 1..];
      assert Built(c, n.path);
      PublicPathExecutes(root, c, n.path, if c.kind.Leaf? then near else c, args, i + 1);
    }
  }

  lemma {:induction false} LeafAbsorbs(root: Node, n: Node, near: Node, p: seq<string>, rest: seq<string>, i: nat, leaf: Node)
    requires i <= |p| && leaf.kind.Leaf? && Executed(root, n, near, p, i) == Execute(leaf)
    ensures Executed(root, n, near, p + rest, i) == Execute(leaf)
    decreases |p| - i
  {
    if i < |p| && !n.kind.Leaf? {
      assert (p + rest)[i] == p[i];
      var child := FindChild(n.children, p[i]);
      if Enters(root, n, child) {
        LeafAbsorbs(root, child.value, if child.value.kind.Leaf? then near else child.value, p, rest, i + 1, leaf);
      }
    }
  }

  /** Words typed after a leaf never change which leaf is executed. */
  lemma WordsAfterALeafNeverMatter(root: Node, p: seq<string>, rest: seq<string>, leaf: Node)
    requires leaf.kind.Leaf? && Executed(root, root, root, p, 0) == Execute(leaf)
    ensures Executed(root, root, root, p + rest, 0) == Execute(leaf)
  {
    LeafAbsorbs(root, root, root, p, rest, 0, leaf);
  }

  // ----- Execution, independent of the walk -----

  /** The nodes passed while reading words: each next one is the child the word names, visible or internal. */
  ghost predicate IsTrail(root: Node, words: seq<string>, trail: seq<Node>) {
    && 0 < |trail| <= |words| + 1 && trail[0] == root
    && forall i :: 0 <= i < |trail| - 1 ==>
         && !trail[i].kind.Leaf? && Enters(root, trail[i], FindChild(trail[i].children, words[i]))
         && trail[i + 1] == FindChild(trail[i].children, words[i]).value
  }

  /** No word is left, the node is a leaf, or the next word enters no child of it. */
  predicate EndsAt(root: Node, words: seq<string>, k: nat, n: Node)
    requires k <= |words|
  {
    k == |words| || n.kind.Leaf? || !Enters(root, n, FindChild(n.children, words[k]))
  }

  /** What running node n means with the words from k on left over. */
  function Outcome(words: seq<string>, k: nat, n: Node): Invocation
    requires k <= |words|
  {
    if n.kind.Leaf? || (n.kind.Hybrid? && (k == |words| || n.acceptsArguments)) then Execute(n)
    else if k == |words| then Incomplete(words, n)
    else PathError(words[..k + 1], n)
  }

  lemma {:induction false} TrailFrom(root: Node, words: seq<string>, trail: seq<Node>, near: Node)
    requires IsTrail(root, words, trail)
    requires var n := trail[|trail| - 1]; !n.kind.Leaf? ==> near == n
    requires Executed(root, root, root, words, 0) == Executed(root, trail[|trail| - 1], near, words, |trail| - 1)
    ensures exists full, k: nat :: k <= |words| && |full| == k + 1 && IsTrail(root, words, full)
              && EndsAt(root, words, k, full[k]) && Executed(root, root, root, words, 0) == Outcome(words, k, full[k])
    decreases |words| - |trail|
  {
    hide InternalExecutable, Join;
    var k := |trail| - 1;
    var n := trail[k];
    if EndsAt(root, words, k, n) {
      assert Executed(root, n, near, words, k) == Outcome(words, k, n);
    } else {
      var c := FindChild(n.children, words[k]).value;
      var next := trail + [c];
      assert IsTrail(root, words, next);
      TrailFrom(root, words, next, if c.kind.Leaf? then near else c);
    }
  }

  /**
   * Execution passes along the words as far as they name visible or internal children, and what it ends in depends on the
   * last node and on whether words are left.
   */
  lemma ExecutionFollowsTheWords(root: Node, words: seq<string>)
    ensures exists trail, k: nat :: k <= |words| && |trail| == k + 1 && IsTrail(root, words, trail)
              && EndsAt(root, words, k, trail[k]) && Executed(root, root, root, words, 0) == Outcome(words, k, trail[k])
  {
    assert IsTrail(root, words, [root]);
    TrailFrom(root, words, [root], root);
  }

  /** The hidden commands that can be run all the same, by their full paths. */
  const INTERNAL_PATHS := {
    ["yui", "internal"], ["yui", "config", "completion", "candidates"], ["yui", "task", "run", "checkpoint"],
    ["yui", "task", "run", "context"], ["yui", "controller", "identity"], ["yui", "controller", "live-identity"]}

  lemma JoinedPath(path: seq<string>, words: seq<string>)
    requires path != [] && words != [] && (forall w :: w in path ==> ' ' !in w) && forall w :: w in words ==> ' ' !in w
    ensures Join(path) == Join(words) <==> path == words
  {
    SplitInvertsJoin(path);
    SplitInvertsJoin(words);
  }

  /** In a catalog named yui a hidden command runs exactly when its full path is one of the internal ones. */
  lemma HiddenCommandsRunExactly(root: Node, n: Node, c: Node)
    requires IsCatalog(root) && root.name == "yui" && InTree(root, n) && c in n.children && c.hidden
    requires forall w :: w in n.path ==> ' ' !in w
    ensures c.path == n.path + [c.name]
    ensures Enters(root, n, Some(c)) <==> c.path in INTERNAL_PATHS
  {
    RootIsShortest(root, n);
    BuiltBelow(root, [], n);
    var i :| 0 <= i < |n.children| && n.children[i] == c;
    NamedPaths(n.path);
    PathOf(n.path, c.name);
    hide Join, Built, Accepted, InTree, INTERNAL_PATHS;
  }

  lemma NamedPaths(path: seq<string>)
    requires path != [] && forall w :: w in path ==> ' ' !in w
    ensures Join(path) == "yui config completion" <==> path == ["yui", "config", "completion"]
    ensures Join(path) == "yui task run" <==> path == ["yui", "task", "run"]
    ensures Join(path) == "yui controller" <==> path == ["yui", "controller"]
  {
    LiteralPaths();
    hide Join;
    JoinedPath(path, ["yui", "config", "completion"]);
    JoinedPath(path, ["yui", "task", "run"]);
    JoinedPath(path, ["yui", "controller"]);
  }

  lemma RootIsShortest(root: Node, n: Node)
    requires Built(root, []) && InTree(root, n)
    ensures n == root <==> n.path == [root.name]
  {
    DepthIsPathLength(root, [], n);
  }

  lemma LiteralPaths()
    ensures Join(["yui", "config", "completion"]) == "yui config completion" && Join(["yui", "task", "run"]) == "yui task run"
    ensures Join(["yui", "controller"]) == "yui controller"
  {
    JoinOfTwo("config", "completion");
    JoinOfTwo("task", "run");
    JoinOfTwo("yui", "controller");
    JoinOfThree("yui", "config", "completion");
    JoinOfThree("yui", "task", "run");
    hide Join;
  }

  lemma JoinOfTwo(a: string, b: string)
    ensures Join([a, b]) == a + " " + b
  {
    assert [a, b][1..] == [b];
  }

  lemma JoinOfThree(a: string, b: string, c: string)
    ensures Join([a, b, c]) == a + " " + Join([b, c])
  {
    assert [a, b, c][1..] == [b, c];
  }

  lemma PathOf(parent: seq<string>, name: string)
    ensures parent + [name] in INTERNAL_PATHS <==>
      || (parent == ["yui"] && name == "internal")
      || (parent == ["yui", "config", "completion"] && name == "candidates")
      || (parent == ["yui", "task", "run"] && (name == "checkpoint" || name == "context"))
      || (parent == ["yui", "controller"] && (name == "identity" || name == "live-identity"))
  {
    var path := parent + [name];
    assert path[..|path| - 1] == parent && path[|path| - 1] == name;
    assert ["yui", "internal"] == ["yui"] + ["internal"];
    assert ["yui", "config", "completion", "candidates"] == ["yui", "config", "completion"] + ["candidates"];
    assert ["yui", "task", "run", "checkpoint"] == ["yui", "task", "run"] + ["checkpoint"];
    assert ["yui", "task", "run", "context"] == ["yui", "task", "run"] + ["context"];
    assert ["yui", "controller", "identity"] == ["yui", "controller"] + ["identity"];
    assert ["yui", "controller", "live-identity"] == ["yui", "controller"] + ["live-identity"];
  }

  lemma {:induction false} BuiltBelow(n: Node, parent: seq<string>, m: Node)
    requires Built(n, parent) && InTree(n, m)
    ensures m.path != [] && Built(m, m.path[..|m.path| - 1]) && n.path <= m.path
    decreases n
  {
    if m == n {
      assert n.path[..|n.path| - 1] == parent;
    } else {
      var i :| 0 <= i < |n.children| && InTree(n.children[i], m);
      BuiltBelow(n.children[i], n.path, m);
    }
  }

  // ----- Groups and executable parents -----

  function FirstNamed(inputs: seq<Input>, name: string): Option<Input> {
    if inputs == [] then None else if inputs[0].name == name then Some(inputs[0]) else FirstNamed(inputs[1..], name)
  }

  /** The catalog entry that visible names lead to. */
  function EntryAt(input: Input, path: seq<string>): Option<Input>
    decreases |path|
  {
    if path == [] then Some(input)
    else match FirstNamed(input.children, path[0])
      case Some(e) => if e.hidden then None else EntryAt(e, path[1..])
      case None => None
  }

  lemma {:induction false} BuiltChild(inputs: seq<Input>, path: seq<string>, name: string)
    ensures FindChild(BuildAll(inputs, path), name)
            == match FirstNamed(inputs, name) case Some(e) => Some(Build(e, path)) case None => None
  {
    if inputs != [] {
      BuiltChild(inputs[1..], path, name);
      assert BuildAll(inputs, path)[1..] == BuildAll(inputs[1..], path);
    }
  }

  lemma {:induction false} EntryIsBuilt(input: Input, parent: seq<string>, path: seq<string>)
    ensures PublicWalk(Build(input, parent), path).Some? <==> EntryAt(input, path).Some?
    ensures EntryAt(input, path).Some? ==>
      exists p :: PublicWalk(Build(input, parent), path) == Some(Build(EntryAt(input, path).value, p))
    decreases |path|
  {
    if path != [] {
      BuiltChild(input.children, parent + [input.name], path[0]);
      var e := FirstNamed(input.children, path[0]);
      if e.Some? { EntryIsBuilt(e.value, parent + [input.name], path[1..]); }
    }
  }

  /** Typing the public path of a command with children runs it exactly when its entry says executable; else it is incomplete. */
  lemma ExecutableParentsRun(input: Input, words: seq<string>)
    requires EntryAt(input, words).Some?
    ensures var root := Build(input, []); var e := EntryAt(input, words).value;
            exists n: Node :: n.name == e.name && PublicWalk(root, words) == Some(n)
              && Executed(root, root, root, words, 0)
                 == if e.children != [] && e.executable != Some(true) then Incomplete(words, n) else Execute(n)
  {
    var root := Build(input, []);
    var e := EntryAt(input, words).value;
    EntryIsBuilt(input, [], words);
    var p :| PublicWalk(root, words) == Some(Build(e, p));
    BuildIsExact(e, p);
    assert words[0..] == words;
    PublicPathExecutes(root, root, [], root, words, 0);
    hide Executed, Build, PublicWalk;
  }

  // ----- Completion -----

  /** The completion walk from node n with words i.. still to read: where it stops and how many it used. */
  function Completed(n: Node, words: seq<string>, i: nat): (r: (Node, nat))
    requires i <= |words|
    ensures i <= r.1 <= |words|
    decreases |words| - i
  {
    if i == |words| || n.kind.Leaf? then (n, i)
    else match FindChild(n.children, words[i])
      case None => (n, i)
      case Some(c) => Completed(c, words, i + 1)
  }

  method ResolveCommand(root: Node, words: seq<string>) returns (node: Node, consumed: nat)
    ensures (node, consumed) == Completed(root, words, 0)
  {
    node, consumed := root, 0;
    while consumed < |words| && !node.kind.Leaf?
      invariant consumed <= |words| && Completed(root, words, 0) == Completed(node, words, consumed)
    {
      var child := FindChild(node.children, words[consumed]);
      if child.None? { break; }
      node := child.value;
      consumed := consumed + 1;
    }
  }

  /** Completion stops at the node its words lead to, hidden ones included, where a word names no child or a leaf is reached. */
  lemma {:induction false} CompletionFollowsTheWords(n: Node, words: seq<string>, i: nat)
    requires i <= |words|
    ensures var (m, k) := Completed(n, words, i);
            && Walk(n, words[i..k]) == Some(m)
            && (k < |words| ==> m.kind.Leaf? || forall c :: c in m.children ==> c.name != words[k])
            && forall j :: i <= j < k ==> Walk(n, words[i..j]).Some? && !Walk(n, words[i..j]).value.kind.Leaf?
    decreases |words| - i
  {
    var (m, k) := Completed(n, words, i);
    assert words[i..i] == [];
    if i < |words| && !n.kind.Leaf? && FindChild(n.children, words[i]).Some? {
      var c := FindChild(n.children, words[i]).value;
      CompletionFollowsTheWords(c, words, i + 1);
      forall j | i + 1 <= j <= k ensures Walk(n, words[i..j]) == Walk(c, words[i + 1..j]) {
        assert words[i..j][1..] == words[i + 1..j];
      }
    }
  }

  /** No child that the completion walk enters is hidden. */
  predicate MeetsNothingHidden(n: Node, words: seq<string>, i: nat)
    requires i <= |words|
    decreases |words| - i
  {
    if i == |words| || n.kind.Leaf? then true
    else match FindChild(n.children, words[i])
      case None => true
      case Some(c) => !c.hidden && MeetsNothingHidden(c, words, i + 1)
  }

  /** Execution ends at the node completion stops at, or rejects the word completion could not follow. */
  lemma {:induction false} CompletionAgrees(root: Node, n: Node, near: Node, words: seq<string>, i: nat)
    requires i <= |words| && MeetsNothingHidden(n, words, i) && (n.kind.Leaf? || near == n)
    ensures var (m, k) := Completed(n, words, i);
            && (k == |words| ==> Executed(root, n, near, words, i) == if m.kind.Group? then Incomplete(words, m) else Execute(m))
            && (k < |words| && (m.kind.Leaf? || (m.kind.Hybrid? && m.acceptsArguments)) ==>
                 Executed(root, n, near, words, i) == Execute(m))
            && (k < |words| && !m.kind.Leaf? && !(m.kind.Hybrid? && m.acceptsArguments) ==>
                 Executed(root, n, near, words, i) == PathError(words[..k + 1], m))
    decreases |words| - i
  {
    if i < |words| && !n.kind.Leaf? {
      var child := FindChild(n.children, words[i]);
      if child.Some? {
        CompletionAgrees(root, child.value, if child.value.kind.Leaf? then near else child.value, words, i + 1);
      }
    }
  }

  // ----- Public listing -----

  /** listPublicCommandPaths: visible descendants in preorder, without the root's name. */
  function PublicPaths(children: seq<Node>): seq<seq<string>> {
    if children == [] then []
    else
      var c := children[0];
      (if c.hidden || c.path == [] then [] else [c.path[1..]] + PublicPaths(c.children)) + PublicPaths(children[1..])
  }

  /** The listing is in preorder: a visible child comes before what is below it, and before its next sibling. */
  lemma {:induction false} ListingFollowsTheTree(a: seq<Node>, b: seq<Node>, c: Node)
    ensures PublicPaths(a + b) == PublicPaths(a) + PublicPaths(b)
    ensures c.path != [] ==> PublicPaths([c]) == if c.hidden then [] else [c.path[1..]] + PublicPaths(c.children)
    decreases |a|
  {
    assert [c][1..] == [];
    if a == [] {
      assert a + b == b;
    } else {
      assert (a + b)[0] == a[0] && (a + b)[1..] == a[1..] + b;
      ListingFollowsTheTree(a[1..], b, c);
    }
  }

  /** visit: pushes a visible child and everything below it, in order. */
  method ListPublicPaths(children: seq<Node>, ghost parent: seq<string>) returns (paths: seq<seq<string>>)
    requires forall i :: 0 <= i < |children| ==> Built(children[i], parent)
    ensures paths == PublicPaths(children)
    decreases children
  {
    paths := [];
    for i := 0 to |children|
      invariant PublicPaths(children) == paths + PublicPaths(children[i..])
    {
      var c := children[i];
      assert Built(c, parent);
      assert children[i..][0] == c && children[i..][1..] == children[i + 1..];
      var group := [];
      if !c.hidden {
        var below := ListPublicPaths(c.children, c.path);
        group := [c.path[1..]] + below;
      }
      assert PublicPaths(children[i..]) == group + PublicPaths(children[i + 1..]);
      paths := paths + group;
    }
  }

  ghost predicate NamesPublic(children: seq<Node>, x: seq<string>) {
    exists c, p :: c in children && !c.hidden && PublicWalk(c, p).Some? && |c.path| > 0 && x == c.path[1..] + p
  }

  ghost predicate Siblings(children: seq<Node>, parent: seq<string>) {
    && parent != [] && Distinct(ChildNames(children))
    && forall i :: 0 <= i < |children| ==> Built(children[i], parent) && Accepted(children[i])
  }

  lemma ChildPathIsPublic(c: Node, d: Node, q: seq<string>)
    requires NodeOk(c) && d in c.children && !d.hidden && PublicWalk(d, q).Some?
    requires c.path != [] && d.path == c.path + [d.name]
    ensures PublicWalk(c, [d.name] + q) == PublicWalk(d, q) && d.path[1..] + q == c.path[1..] + ([d.name] + q)
  {
    ChildIsFound(c, d);
    hide NodeOk;
    PathShifts(c.path, d.name, q);
    assert ([d.name] + q)[0] == d.name && ([d.name] + q)[1..] == q;
  }

  lemma PathShifts(path: seq<string>, name: string, q: seq<string>)
    requires path != []
    ensures (path + [name])[1..] + q == path[1..] + ([name] + q)
  {}

  lemma PublicStep(c: Node, p: seq<string>)
    requires c.path != [] && (forall i :: 0 <= i < |c.children| ==> Built(c.children[i], c.path))
    requires PublicWalk(c, p).Some?
    ensures p == [] || NamesPublic(c.children, c.path[1..] + p)
  {
    if p != [] {
      var d := FindChild(c.children, p[0]).value;
      assert d.path == c.path + [p[0]] && PublicWalk(d, p[1..]).Some?;
      hide Built, PublicWalk, FindChild;
      PathShifts(c.path, p[0], p[1..]);
      assert p == [p[0]] + p[1..];
    }
  }

  /** A public path below c is c itself or a public path below one of its children. */
  lemma PublicBelow(c: Node, x: seq<string>)
    requires NodeOk(c) && c.path != [] && forall i :: 0 <= i < |c.children| ==> Built(c.children[i], c.path)
    ensures NamesPublic([c], x) <==> !c.hidden && (x == c.path[1..] || NamesPublic(c.children, x))
  {
    if !c.hidden {
      if NamesPublic([c], x) {
        var p :| PublicWalk(c, p).Some? && x == c.path[1..] + p;
        PublicStep(c, p);
      }
      if x == c.path[1..] { assert PublicWalk(c, []).Some? && x == c.path[1..] + []; }
      if NamesPublic(c.children, x) {
        hide NodeOk;
        var d, q :| d in c.children && !d.hidden && PublicWalk(d, q).Some? && x == d.path[1..] + q;
        ChildPathIsPublic(c, d, q);
      }
    }
  }

  lemma PublicNamesParent(children: seq<Node>, parent: seq<string>, x: seq<string>)
    requires Siblings(children, parent) && NamesPublic(children, x)
    ensures |x| >= |parent| && x[|parent| - 1] in ChildNames(children)
  {
    hide PublicWalk, Accepted, Distinct;
    var c, p :| c in children && !c.hidden && PublicWalk(c, p).Some? && |c.path| > 0 && x == c.path[1..] + p;
    var i :| 0 <= i < |children| && children[i] == c;
    assert x[|parent| - 1] == c.name == ChildNames(children)[i];
  }

  lemma SiblingsSplit(children: seq<Node>, parent: seq<string>)
    requires Siblings(children, parent) && children != []
    ensures Siblings([children[0]], parent) && Siblings(children[1..], parent)
    ensures ChildNames([children[0]]) == [children[0].name] && children[0].name !in ChildNames(children[1..])
  {
    hide Built, Accepted;
    var c, rest := children[0], children[1..];
    assert ChildNames(children) == [c.name] + ChildNames(rest);
    DistinctAppend([c.name], ChildNames(rest));
  }

  /** The listing of a catalog names every public path once and nothing else. */
  lemma {:induction false} ListingIsExact(children: seq<Node>, parent: seq<string>)
    requires Siblings(children, parent)
    ensures Distinct(PublicPaths(children))
    ensures forall x :: x in PublicPaths(children) <==> NamesPublic(children, x)
    decreases children
  {
    if children != [] {
      hide Siblings, PublicWalk, ChildNames;
      var c, rest := children[0], children[1..];
      SiblingsSplit(children, parent);
      ListingIsExact(rest, parent);
      assert children == [c] + rest;
      var first := if c.hidden then [] else [c.path[1..]] + PublicPaths(c.children);
      FirstGroup(c, parent);
      forall x ensures NamesPublic(children, x) <==> NamesPublic([c], x) || NamesPublic(rest, x) {}
      forall x | x in first ensures x !in PublicPaths(rest) {
        PublicNamesParent([c], parent, x);
        if NamesPublic(rest, x) { PublicNamesParent(rest, parent, x); }
      }
      DistinctAppend(first, PublicPaths(rest));
    }
  }

  lemma FirstGroup(c: Node, parent: seq<string>)
    requires Siblings([c], parent)
    ensures var first := if c.hidden then [] else [c.path[1..]] + PublicPaths(c.children);
            Distinct(first) && forall x :: x in first <==> NamesPublic([c], x)
    decreases c
  {
    hide PublicWalk;
    forall x ensures NamesPublic([c], x) <==> !c.hidden && (x == c.path[1..] || NamesPublic(c.children, x)) { PublicBelow(c, x); }
    if !c.hidden {
      DistinctAppend(ChildNames(c.children), ValueNames(c.values));
      ListingIsExact(c.children, c.path);
      if c.path[1..] in PublicPaths(c.children) { PublicNamesParent(c.children, c.path, c.path[1..]); }
      DistinctAppend([c.path[1..]], PublicPaths(c.children));
    }
  }

  /** Help accepts exactly the empty path and the listed ones. */
  lemma HelpAcceptsTheListing(root: Node, path: seq<string>)
    requires IsCatalog(root)
    ensures PublicWalk(root, path).Some? <==> path == [] || path in PublicPaths(root.children)
  {
    DistinctAppend(ChildNames(root.children), ValueNames(root.values));
    ListingIsExact(root.children, root.path);
    hide NodeOk, PublicPaths, Siblings, Distinct;
    assert root.path[1..] == [];
    assert root.path[1..] + path == path;
    if PublicWalk(root, path).Some? { PublicStep(root, path); }
    if NamesPublic(root.children, path) {
      var d, q :| d in root.children && !d.hidden && PublicWalk(d, q).Some? && |d.path| > 0 && path == d.path[1..] + q;
      ChildPathIsPublic(root, d, q);
    }
  }
}

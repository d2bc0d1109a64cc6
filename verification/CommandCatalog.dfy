// The command tree: what its validator accepts, and that every listing made
// from an accepted tree shows each visible command exactly once.

module CommandTree {
  import opened Options
  import opened Text

  datatype Kind = Group | Leaf | Hybrid

  datatype Value = Value(name: string, summary: string)

  datatype Section = Section(id: string, title: string, entries: seq<string>)

  /** A number of a catalog entry; Other stands for all that are not integers. */
  datatype Number = Whole(n: int) | Other

  datatype ArgumentValues = ArgumentValues(position: Number, values: seq<string>)

  /** Where the completions of an entry's options and arguments come from. */
  datatype Completion = Completion(
    optionValues: map<string, seq<string>>, argumentValues: seq<ArgumentValues>, fileOptions: seq<string>,
    executableOptions: seq<string>, workspaceMapOptions: seq<string>, fileArguments: seq<Number>,
    commandPathArguments: bool)

  datatype Node = Node(
    name: string, path: seq<string>, summary: string, usage: seq<string>, examples: seq<string>,
    kind: Kind, hidden: bool, acceptsArguments: bool, children: seq<Node>, values: seq<Value>, sections: seq<Section>,
    options: seq<string>, hiddenOptions: seq<string>, completion: Completion)

  /** What a catalog entry states; None means the default. */
  datatype Input = Input(
    name: string, summary: string, usage: Option<seq<string>>, examples: Option<seq<string>>,
    executable: Option<bool>, hidden: bool, acceptsArguments: Option<bool>, children: seq<Input>,
    values: seq<Value>, sections: seq<Section>, options: seq<string>, hiddenOptions: seq<string>, completion: Completion)

  function Join(words: seq<string>): string {
    if words == [] then "" else if |words| == 1 then words[0] else words[0] + " " + Join(words[1..])
  }

  function Or<T>(given: Option<T>, default: T): T { if given.Some? then given.value else default }

  function Build(input: Input, parentPath: seq<string>): (n: Node)
    ensures Built(n, parentPath)
    decreases input, 1
  {
    var path := parentPath + [input.name];
    var children := BuildAll(input.children, path);
    var executable := Or(input.executable, children == []);
    var usage := Or(input.usage, [Join(path) + if children != [] && !executable then " <command>" else ""]);
    Node(input.name, path, input.summary, usage, Or(input.examples, usage),
         if children == [] then Leaf else if executable then Hybrid else Group, input.hidden,
         Or(input.acceptsArguments, executable), children, input.values, input.sections,
         input.options, input.hiddenOptions, input.completion)
  }

  function BuildAll(inputs: seq<Input>, path: seq<string>): (ns: seq<Node>)
    ensures |ns| == |inputs| && forall i :: 0 <= i < |ns| ==> Built(ns[i], path)
    decreases inputs, 0
  {
    if inputs == [] then [] else [Build(inputs[0], path)] + BuildAll(inputs[1..], path)
  }

  /** Paths spell out the position in the tree and exactly the childless nodes are leaves. */
  predicate Built(n: Node, parentPath: seq<string>)
    decreases n
  {
    && n.path == parentPath + [n.name] && (n.kind.Leaf? <==> n.children == [])
    && forall i :: 0 <= i < |n.children| ==> Built(n.children[i], n.path)
  }

  /** The node states what its catalog entry says, with the defaults written out, and so do all below it. */
  predicate Realizes(n: Node, input: Input, parentPath: seq<string>)
    decreases n
  {
    && n.name == input.name && n.path == parentPath + [input.name] && n.summary == input.summary && n.hidden == input.hidden
    && (n.kind.Leaf? <==> input.children == [])
    && (n.kind.Hybrid? <==> input.children != [] && input.executable == Some(true))
    && n.acceptsArguments == (match input.acceptsArguments
                              case Some(given) => given
                              case None => input.executable == Some(true) || (input.executable.None? && input.children == []))
    && (match input.usage
        case Some(lines) => n.usage == lines
        case None => n.usage == [Join(n.path) + if n.kind.Group? then " <command>" else ""])
    && n.examples == (match input.examples case Some(lines) => lines case None => n.usage)
    && n.values == input.values && n.sections == input.sections && n.options == input.options
    && n.hiddenOptions == input.hiddenOptions && n.completion == input.completion
    && |n.children| == |input.children|
    && forall i :: 0 <= i < |n.children| ==> Realizes(n.children[i], input.children[i], n.path)
  }

  lemma {:induction false} BuildIsExact(input: Input, parentPath: seq<string>)
    ensures Realizes(Build(input, parentPath), input, parentPath)
    decreases input, 1
  {
    BuildAllIsExact(input.children, parentPath + [input.name]);
    hide Join;
  }

  lemma {:induction false} BuildAllIsExact(inputs: seq<Input>, path: seq<string>)
    ensures var ns := BuildAll(inputs, path);
            |ns| == |inputs| && forall i :: 0 <= i < |ns| ==> ns[i] == Build(inputs[i], path) && Realizes(ns[i], inputs[i], path)
    decreases inputs, 0
  {
    if inputs != [] {
      BuildIsExact(inputs[0], path);
      BuildAllIsExact(inputs[1..], path);
      var ns, rest := BuildAll(inputs, path), BuildAll(inputs[1..], path);
      forall i | 0 <= i < |ns| ensures ns[i] == Build(inputs[i], path) && Realizes(ns[i], inputs[i], path) {
        if i > 0 { assert ns[i] == rest[i - 1] && inputs[i] == inputs[1..][i - 1]; }
      }
    }
  }

  // ----- Lookups and listings -----

  /** The first child of that name. */
  function FindChild(children: seq<Node>, name: string): (r: Option<Node>)
    ensures match r
      case Some(c) => c in children && c.name == name
      case None => forall c :: c in children ==> c.name != name
  {
    if children == [] then None
    else if children[0].name == name then Some(children[0])
    else FindChild(children[1..], name)
  }

  /** A Map built from the children: the last of equal names wins. */
  function ByName(children: seq<Node>): (m: map<string, Node>)
    ensures forall name :: name in m <==> exists c :: c in children && c.name == name
    ensures forall name :: name in m ==> m[name] in children && m[name].name == name
  {
    if children == [] then map[]
    else
      var last := children[|children| - 1];
      ByName(children[..|children| - 1])[last.name := last]
  }

  function ChildNames(children: seq<Node>): (names: seq<string>)
    ensures |names| == |children| && forall i :: 0 <= i < |names| ==> names[i] == children[i].name
  {
    if children == [] then [] else [children[0].name] + ChildNames(children[1..])
  }

  function ValueNames(values: seq<Value>): (names: seq<string>)
    ensures |names| == |values| && forall i :: 0 <= i < |names| ==> names[i] == values[i].name
  {
    if values == [] then [] else [values[0].name] + ValueNames(values[1..])
  }

  function Immediate(n: Node): seq<string> { ChildNames(n.children) + ValueNames(n.values) }

  /** All section entries in order. */
  function Entries(sections: seq<Section>): seq<string> {
    if sections == [] then [] else sections[0].entries + Entries(sections[1..])
  }

  function SectionIds(sections: seq<Section>): (ids: seq<string>)
    ensures |ids| == |sections| && forall i :: 0 <= i < |ids| ==> ids[i] == sections[i].id
  {
    if sections == [] then [] else [sections[0].id] + SectionIds(sections[1..])
  }

  /** The children an entry list shows. */
  function Shown(entries: seq<string>, byName: map<string, Node>): seq<Node> {
    if entries == [] then []
    else
      var rest := Shown(entries[1..], byName);
      if entries[0] in byName && !byName[entries[0]].hidden then [byName[entries[0]]] + rest else rest
  }

  function ShownInSections(sections: seq<Section>, byName: map<string, Node>): seq<Node> {
    if sections == [] then [] else Shown(sections[0].entries, byName) + ShownInSections(sections[1..], byName)
  }

  function VisibleChildren(n: Node): seq<Node> { ShownInSections(n.sections, ByName(n.children)) }

  datatype Listed = Command(node: Node) | Literal(value: Value)

  function NameOf(l: Listed): string { if l.Command? then l.node.name else l.value.name }

  /** The value a Map built from the values holds: the last of equal names wins. */
  function FindValue(values: seq<Value>, name: string): (r: Option<Value>)
    ensures match r
      case Some(v) => v in values && v.name == name
      case None => forall v :: v in values ==> v.name != name
  {
    if values == [] then None
    else
      var n := |values| - 1;
      if values[n].name == name then Some(values[n]) else FindValue(values[..n], name)
  }

  function ListEntry(n: Node, entry: string): seq<Listed> {
    var byName := ByName(n.children);
    if entry in byName then (if byName[entry].hidden then [] else [Command(byName[entry])])
    else (match FindValue(n.values, entry) case Some(v) => [Literal(v)] case None => [])
  }

  function ListEntries(n: Node, entries: seq<string>): seq<Listed> {
    if entries == [] then [] else ListEntry(n, entries[0]) + ListEntries(n, entries[1..])
  }

  datatype VisibleSection = VisibleSection(id: string, title: string, entries: seq<Listed>)

  function VisibleSections(n: Node, sections: seq<Section>): seq<VisibleSection> {
    if sections == [] then []
    else
      var listed := ListEntries(n, sections[0].entries);
      var rest := VisibleSections(n, sections[1..]);
      if listed == [] then rest else [VisibleSection(sections[0].id, sections[0].title, listed)] + rest
  }

  function Names(ls: seq<Listed>): seq<string> {
    if ls == [] then [] else [NameOf(ls[0])] + Names(ls[1..])
  }

  function Tokens(sections: seq<VisibleSection>): seq<string> {
    if sections == [] then [] else Names(sections[0].entries) + Tokens(sections[1..])
  }

  function OrderedImmediateTokens(n: Node): seq<string> { Tokens(VisibleSections(n, n.sections)) }

  // ----- The validator -----

  const RESERVED := {"-h", "--help", "-help", "-v", "--version"}

  predicate Distinct<T(==)>(s: seq<T>) {
    forall i, j :: 0 <= i < j < |s| ==> s[i] != s[j]
  }

  /** One node's tokens are unambiguous and its sections list each of them once. */
  predicate NodeOk(n: Node) {
    var all := n.options + n.hiddenOptions;
    && Distinct(Immediate(n)) && (forall c :: c in ChildNames(n.children) ==> c !in RESERVED)
    && Distinct(all) && (forall o :: o in all ==> o !in RESERVED && o !in Immediate(n))
    && Distinct(SectionIds(n.sections)) && Distinct(Entries(n.sections))
    && (forall e :: e in Entries(n.sections) ==> e in Immediate(n))
    && (forall t :: t in Immediate(n) ==> t in Entries(n.sections))
  }

  predicate Blank(s: string) { Trim(s) == "" }

  /** An example with a leading `yui --json` read as `yui`. */
  function Plain(example: string): string {
    if "yui --json" <= example && (|example| == 10 || IsSpace(example[10])) then "yui" + example[10..] else example
  }

  /** Only a leading `yui --json` that ends there or before white space is read as `yui`. */
  lemma PlainMeans(rest: string, example: string)
    ensures rest == "" || IsSpace(rest[0]) ==> Plain("yui --json" + rest) == "yui" + rest
    ensures (forall r :: example == "yui --json" + r ==> r != "" && !IsSpace(r[0])) ==> Plain(example) == example
  {
    hide IsSpace;
    var text := "yui --json" + rest;
    assert text[10..] == rest;
    if "yui --json" <= example { assert example == "yui --json" + example[10..]; }
  }

  predicate StartsWith(example: string, words: string) {
    Plain(example) == words || words + " " <= Plain(example)
  }

  /** Texts are given and every example starts with the words of the path. */
  predicate TextsOk(n: Node) {
    && !Blank(n.summary) && n.usage != [] && n.examples != []
    && (forall e :: e in n.examples ==> !Blank(e) && StartsWith(e, Join(n.path)))
    && (forall v :: v in n.values ==> !Blank(v.name) && !Blank(v.summary))
    && (forall s :: s in n.sections ==> !Blank(s.id) && !Blank(s.title))
  }

  datatype Source = Listed | Files | Executables | WorkspaceMap

  /** The source s completes the values of an option. */
  predicate Completes(c: Completion, s: Source, option: string) {
    match s
    case Listed => option in c.optionValues
    case Files => option in c.fileOptions
    case Executables => option in c.executableOptions
    case WorkspaceMap => option in c.workspaceMapOptions
  }

  ghost predicate HasOneSource(c: Completion, option: string) {
    forall s, t :: Completes(c, s, option) && Completes(c, t, option) ==> s == t
  }

  /** The position is completed from listed values. */
  predicate ListsArgument(c: Completion, position: Number) {
    exists a :: a in c.argumentValues && a.position == position
  }

  predicate IsPosition(x: Number) { x.Whole? && x.n >= 0 }

  /** Completion only speaks of known options and real positions, names nothing twice and has one source for each. */
  ghost predicate CompletionOk(c: Completion, options: seq<string>) {
    && (forall s, o :: Completes(c, s, o) ==> o in options)
    && (forall o :: o in options ==> HasOneSource(c, o))
    && Distinct(c.fileOptions) && Distinct(c.executableOptions) && Distinct(c.workspaceMapOptions)
    && (forall o :: o in c.optionValues ==> Distinct(c.optionValues[o]))
    && (forall a :: a in c.argumentValues ==> IsPosition(a.position) && Distinct(a.values))
    && Distinct(c.fileArguments)
    && (forall x :: x in c.fileArguments ==> IsPosition(x) && !ListsArgument(c, x))
  }

  /** A command that completes command paths is a visible leaf and completes nothing else. */
  predicate IsBare(n: Node) {
    && n.kind.Leaf? && !n.hidden && n.children == [] && n.values == [] && n.sections == []
    && n.options == [] && n.hiddenOptions == []
    && n.completion == Completion(map[], [], [], [], [], [], true)
  }

  ghost predicate MetadataOk(n: Node) {
    && TextsOk(n) && CompletionOk(n.completion, n.options + n.hiddenOptions)
    && (n.completion.commandPathArguments ==> IsBare(n))
  }

  ghost predicate Accepted(n: Node)
    decreases n
  {
    NodeOk(n) && MetadataOk(n) && forall i :: 0 <= i < |n.children| ==> Accepted(n.children[i])
  }

  lemma DistinctExtends<T>(s: seq<T>, x: T)
    ensures Distinct(s + [x]) <==> Distinct(s) && x !in s
  {
    if Distinct(s + [x]) {
      forall i, j | 0 <= i < j < |s| ensures s[i] != s[j] { assert (s + [x])[i] != (s + [x])[j]; }
      forall i | 0 <= i < |s| ensures s[i] != x { assert (s + [x])[i] != (s + [x])[|s|]; }
    }
  }

  lemma DistinctPrefix<T>(s: seq<T>, k: nat)
    requires k <= |s| && Distinct(s)
    ensures Distinct(s[..k])
  {}

  /** Adds names one at a time to a Set, stopping at the first one already there. */
  method AddDistinct(names: seq<string>, base: set<string>) returns (ok: bool, all: set<string>)
    ensures ok <==> Distinct(names) && forall x :: x in names ==> x !in base
    ensures ok ==> all == base + set x | x in names
  {
    all := base;
    for i := 0 to |names|
      invariant Distinct(names[..i]) && (forall x :: x in names[..i] ==> x !in base)
      invariant all == base + set x | x in names[..i]
    {
      assert names[..i + 1] == names[..i] + [names[i]];
      DistinctExtends(names[..i], names[i]);
      if names[i] in all {
        if Distinct(names) { DistinctPrefix(names, i + 1); }
        return false, all;
      }
      all := all + {names[i]};
    }
    assert names[..|names|] == names;
    ok := true;
  }

  lemma {:induction false} DistinctBySize<T>(s: seq<T>)
    ensures |set x | x in s| <= |s| && (|set x | x in s| == |s| <==> Distinct(s))
  {
    if s == [] {
      assert (set x | x in s) == {};
    } else {
      var k := |s| - 1;
      DistinctBySize(s[..k]);
      DistinctExtends(s[..k], s[k]);
      assert s == s[..k] + [s[k]];
      assert (set x | x in s) == (set x | x in s[..k]) + {s[k]};
    }
  }

  /** new Set(s).size === s.length */
  function Unrepeated<T(==)>(s: seq<T>): (r: bool)
    ensures r <==> Distinct(s)
  {
    DistinctBySize(s);
    |set x | x in s| == |s|
  }

  /** The checks of texts: given where required, and examples that start with the path. */
  method CheckTexts(n: Node) returns (ok: bool)
    ensures ok <==> TextsOk(n)
  {
    hide Blank, StartsWith, Join;
    var words := Join(n.path);
    if Blank(n.summary) || n.usage == [] || n.examples == [] || exists e :: e in n.examples && Blank(e) { return false; }
    for i := 0 to |n.examples|
      invariant forall j :: 0 <= j < i ==> StartsWith(n.examples[j], words)
    {
      if !StartsWith(n.examples[i], words) { return false; }
    }
    ok := (forall v :: v in n.values ==> !Blank(v.name) && !Blank(v.summary))
       && forall s :: s in n.sections ==> !Blank(s.id) && !Blank(s.title);
  }

  function Count(b: bool): nat { if b then 1 else 0 }

  method CheckCompletion(c: Completion, options: seq<string>) returns (ok: bool)
    ensures ok <==> CompletionOk(c, options)
  {
    hide Distinct;
    KnownOptions(c, options);
    if exists o :: o in c.optionValues && (o !in options || !Unrepeated(c.optionValues[o])) { return false; }
    if exists a :: a in c.argumentValues && (!IsPosition(a.position) || !Unrepeated(a.values)) { return false; }
    if !Unrepeated(c.fileOptions) || !Unrepeated(c.executableOptions) || !Unrepeated(c.workspaceMapOptions) { return false; }
    if exists o :: o in c.fileOptions + c.executableOptions + c.workspaceMapOptions && o !in options { return false; }
    for i := 0 to |options|
      invariant forall j :: 0 <= j < i ==> HasOneSource(c, options[j])
    {
      var option := options[i];
      var owners := Count(option in c.optionValues) + Count(option in c.fileOptions)
                  + Count(option in c.executableOptions) + Count(option in c.workspaceMapOptions);
      OneOwner(c, option);
      if owners > 1 { return false; }
    }
    ok := && Unrepeated(c.fileArguments)
          && forall x :: x in c.fileArguments ==> IsPosition(x) && !ListsArgument(c, x);
  }

  lemma KnownOptions(c: Completion, options: seq<string>)
    ensures (forall s, o :: Completes(c, s, o) ==> o in options) <==>
            (forall o :: o in c.optionValues ==> o in options) &&
            (forall o :: o in c.fileOptions + c.executableOptions + c.workspaceMapOptions ==> o in options)
  {
    assert forall o :: o in c.optionValues ==> Completes(c, Listed, o);
    assert forall o :: o in c.fileOptions ==> Completes(c, Files, o);
    assert forall o :: o in c.executableOptions ==> Completes(c, Executables, o);
    assert forall o :: o in c.workspaceMapOptions ==> Completes(c, WorkspaceMap, o);
  }

  lemma OneOwner(c: Completion, option: string)
    ensures Count(option in c.optionValues) + Count(option in c.fileOptions)
            + Count(option in c.executableOptions) + Count(option in c.workspaceMapOptions) <= 1
            <==> HasOneSource(c, option)
  {
    if HasOneSource(c, option) {
      var l, f, e, w := Completes(c, Listed, option), Completes(c, Files, option),
                        Completes(c, Executables, option), Completes(c, WorkspaceMap, option);
      assert !(l && f) && !(l && e) && !(l && w) && !(f && e) && !(f && w) && !(e && w);
    }
  }

  /** visit, up to its recursion. */
  method CheckNode(n: Node) returns (ok: bool)
    ensures ok <==> NodeOk(n) && MetadataOk(n)
  {
    hide NodeOk, TextsOk, CompletionOk;
    ok := CheckTexts(n);
    if !ok { return; }
    var c := n.completion;
    var bare := !(!n.kind.Leaf? || n.hidden || n.children != [] || n.values != [] || n.sections != [] || n.options != []
                  || n.hiddenOptions != [] || c.optionValues != map[] || c.argumentValues != [] || c.fileOptions != []
                  || c.fileArguments != [] || c.executableOptions != []);
    if c.commandPathArguments && !bare { return false; }
    ok := CheckTokens(n);
    if !ok { return; }
    ok := CheckCompletion(c, n.options + n.hiddenOptions);
    if ok && c.commandPathArguments { NothingToComplete(c, n.options + n.hiddenOptions); }
  }

  /** Without options there is no workspace-map option either. */
  lemma NothingToComplete(c: Completion, options: seq<string>)
    requires CompletionOk(c, options)
    ensures c.workspaceMapOptions != [] ==> options != []
  {
    if c.workspaceMapOptions != [] { assert Completes(c, WorkspaceMap, c.workspaceMapOptions[0]); }
  }

  /** Sets of immediate tokens, options, section ids and section entries. */
  method CheckTokens(n: Node) returns (ok: bool)
    ensures ok <==> NodeOk(n)
  {
    var children, values, all := ChildNames(n.children), ValueNames(n.values), n.options + n.hiddenOptions;
    DistinctAppend(children, values);
    var immediate: set<string>;
    ok, immediate := AddDistinct(children, {});
    if !ok { return; }
    if exists c :: c in children && c in RESERVED { return false; }
    ok, immediate := AddDistinct(values, immediate);
    if !ok { return; }
    assert immediate == set x | x in Immediate(n);
    if exists o :: o in all && o in RESERVED { return false; }
    var options: set<string>;
    ok, options := AddDistinct(all, immediate);
    if !ok { return; }
    var ids: set<string>;
    ok, ids := AddDistinct(SectionIds(n.sections), {});
    if !ok { return; }
    var listed: set<string>;
    ok, listed := AddDistinct(Entries(n.sections), {});
    if !ok { return; }
    ok := listed == immediate;
    assert forall e :: e in Entries(n.sections) <==> e in listed;
    assert forall e :: e in Immediate(n) <==> e in immediate;
  }

  lemma DistinctAppend<T>(a: seq<T>, b: seq<T>)
    ensures Distinct(a + b) <==> Distinct(a) && Distinct(b) && forall x :: x in b ==> x !in a
  {
    var s := a + b;
    if Distinct(s) {
      forall i, j | 0 <= i < j < |a| ensures a[i] != a[j] { assert s[i] != s[j]; }
      forall i, j | 0 <= i < j < |b| ensures b[i] != b[j] { assert s[|a| + i] != s[|a| + j]; }
      forall i, j | 0 <= i < |a| && 0 <= j < |b| ensures a[i] != b[j] { assert s[i] != s[|a| + j]; }
    }
    if Distinct(a) && Distinct(b) && forall x :: x in b ==> x !in a {
      forall i, j | 0 <= i < j < |s| ensures s[i] != s[j] {
        if j < |a| { assert a[i] != a[j]; }
        else if i < |a| { assert b[j - |a|] in b && a[i] in a; }
        else { assert b[i - |a|] != b[j - |a|]; }
      }
    }
  }

  /** The commands that complete command paths, in preorder. */
  function Providers(n: Node): seq<Node>
    decreases n, 0
  {
    (if n.completion.commandPathArguments then [n] else []) + AllProviders(n.children)
  }

  function AllProviders(nodes: seq<Node>): seq<Node> {
    if nodes == [] then [] else Providers(nodes[0]) + AllProviders(nodes[1..])
  }

  /** The recursion of visit, which collects the providers on its way. */
  method Visit(n: Node, found: seq<Node>) returns (ok: bool, providers: seq<Node>)
    ensures ok <==> Accepted(n)
    ensures ok ==> providers == found + Providers(n)
    decreases n
  {
    hide NodeOk, MetadataOk;
    providers := if n.completion.commandPathArguments then found + [n] else found;
    ok := CheckNode(n);
    if !ok { return; }
    for i := 0 to |n.children|
      invariant forall j :: 0 <= j < i ==> Accepted(n.children[j])
      invariant found + Providers(n) == providers + AllProviders(n.children[i..])
    {
      var child := n.children[i..];
      assert child[0] == n.children[i] && child[1..] == n.children[i + 1..];
      ok, providers := Visit(n.children[i], providers);
      if !ok { return; }
    }
    ok := true;
  }

  /** Every node passes, and at most one command completes command paths: one directly below the root. */
  ghost predicate IsValid(root: Node) {
    && Accepted(root) && |Providers(root)| <= 1
    && forall p :: p in Providers(root) ==> |p.path| == |root.path| + 1
  }

  /** validateCommandCatalog over the whole tree. */
  method Validate(root: Node) returns (ok: bool)
    ensures ok <==> IsValid(root)
  {
    hide Accepted, Providers;
    var providers;
    ok, providers := Visit(root, []);
    if !ok { return; }
    ok := |providers| <= 1 && (providers != [] ==> |providers[0].path| == |root.path| + 1);
  }

  ghost predicate InTree(root: Node, n: Node)
    decreases root
  {
    n == root || exists i :: 0 <= i < |root.children| && InTree(root.children[i], n)
  }

  lemma {:induction false} ProviderIsCollected(n: Node, p: Node)
    requires InTree(n, p) && p.completion.commandPathArguments
    ensures p in Providers(n)
    decreases n
  {
    if p != n {
      var i :| 0 <= i < |n.children| && InTree(n.children[i], p);
      ProviderIsCollected(n.children[i], p);
      AllContains(n.children, i, p);
    }
  }

  lemma {:induction false} AllContains(nodes: seq<Node>, i: nat, p: Node)
    requires i < |nodes| && p in Providers(nodes[i])
    ensures p in AllProviders(nodes)
  {
    if i > 0 { AllContains(nodes[1..], i - 1, p); }
  }

  lemma {:induction false} DepthIsPathLength(n: Node, parent: seq<string>, m: Node)
    requires Built(n, parent) && InTree(n, m)
    ensures m == n || (|m.path| > |n.path| && (|m.path| == |n.path| + 1 ==> m in n.children))
    decreases n
  {
    if m != n {
      var i :| 0 <= i < |n.children| && InTree(n.children[i], m);
      DepthIsPathLength(n.children[i], n.path, m);
    }
  }

  lemma {:induction false} AcceptedBelow(n: Node, m: Node)
    requires Accepted(n) && InTree(n, m)
    ensures Accepted(m)
    decreases n
  {
    hide NodeOk, MetadataOk;
    if m != n {
      var i :| 0 <= i < |n.children| && InTree(n.children[i], m);
      AcceptedBelow(n.children[i], m);
    }
  }

  lemma {:induction false} ProvidersAreInTree(n: Node, p: Node)
    ensures p in Providers(n) <==> InTree(n, p) && p.completion.commandPathArguments
    decreases n, 1
  {
    if InTree(n, p) && p.completion.commandPathArguments { ProviderIsCollected(n, p); }
    if p in AllProviders(n.children) { var i := ProviderOf(n.children, p); ProvidersAreInTree(n.children[i], p); }
  }

  lemma {:induction false} ProviderOf(nodes: seq<Node>, p: Node) returns (i: nat)
    requires p in AllProviders(nodes)
    ensures i < |nodes| && p in Providers(nodes[i])
  {
    if p in Providers(nodes[0]) {
      i := 0;
    } else {
      i := ProviderOf(nodes[1..], p);
      i := i + 1;
    }
  }

  lemma {:induction false} PathsBelow(n: Node, parent: seq<string>, m: Node)
    requires Built(n, parent) && InTree(n, m)
    ensures n.path <= m.path
    decreases n
  {
    if m != n {
      var i :| 0 <= i < |n.children| && InTree(n.children[i], m);
      PathsBelow(n.children[i], n.path, m);
    }
  }

  /** In an accepted tree each provider is collected once. */
  lemma {:induction false} ProvidersAreDistinct(n: Node, parent: seq<string>)
    requires Built(n, parent) && Accepted(n)
    ensures Distinct(Providers(n))
    decreases n, 1
  {
    NamesDiffer(n);
    AllProvidersAreDistinct(n.children, n.path);
    forall p | p in AllProviders(n.children) ensures |p.path| > |n.path| {
      var i := ProviderOf(n.children, p);
      ProvidersAreInTree(n.children[i], p);
      PathsBelow(n.children[i], n.path, p);
    }
    DistinctAppend(if n.completion.commandPathArguments then [n] else [], AllProviders(n.children));
  }

  lemma NamesDiffer(n: Node)
    requires NodeOk(n)
    ensures Distinct(ChildNames(n.children))
  {
    DistinctAppend(ChildNames(n.children), ValueNames(n.values));
  }

  lemma {:induction false} AllProvidersAreDistinct(nodes: seq<Node>, parent: seq<string>)
    requires Distinct(ChildNames(nodes))
    requires forall i :: 0 <= i < |nodes| ==> Built(nodes[i], parent) && Accepted(nodes[i])
    ensures Distinct(AllProviders(nodes))
    decreases nodes, 0
  {
    if nodes != [] {
      var c, rest := nodes[0], nodes[1..];
      assert ChildNames(nodes) == [c.name] + ChildNames(rest);
      DistinctAppend([c.name], ChildNames(rest));
      ProvidersAreDistinct(c, parent);
      AllProvidersAreDistinct(rest, parent);
      forall p | p in AllProviders(rest) ensures |p.path| > |parent| && p.path[|parent|] != c.name {
        var i := ProviderOf(rest, p);
        ProvidersAreInTree(rest[i], p);
        PathsBelow(rest[i], parent, p);
        assert rest[i].name == ChildNames(rest)[i];
      }
      forall p | p in Providers(c) ensures |p.path| > |parent| && p.path[|parent|] == c.name {
        ProvidersAreInTree(c, p);
        PathsBelow(c, parent, p);
      }
      DistinctAppend(Providers(c), AllProviders(rest));
    }
  }

  /** In a built tree validity means that every node passes and at most one command, of the root, completes command paths. */
  lemma ValidityMeans(root: Node, parent: seq<string>)
    requires Built(root, parent)
    ensures IsValid(root) <==>
      && Accepted(root)
      && (forall p :: InTree(root, p) && p.completion.commandPathArguments ==> p in root.children)
      && (forall p, q :: InTree(root, p) && InTree(root, q) && p.completion.commandPathArguments && q.completion.commandPathArguments ==> p == q)
  {
    hide NodeOk, MetadataOk, Accepted, Providers;
    forall p ensures p in Providers(root) <==> InTree(root, p) && p.completion.commandPathArguments { ProvidersAreInTree(root, p); }
    forall p | InTree(root, p) ensures |p.path| == |root.path| + 1 <==> p in root.children && p != root {
      DepthIsPathLength(root, parent, p);
    }
    if Accepted(root) {
      ProvidersAreDistinct(root, parent);
      if |Providers(root)| > 1 { assert Providers(root)[0] != Providers(root)[1]; }
      RootIsNoChild(root, parent);
    }
  }

  lemma RootIsNoChild(root: Node, parent: seq<string>)
    requires Built(root, parent)
    ensures root !in root.children
  {}

  /** A command that completes command paths is a visible command of the root with nothing else on it, and the only one. */
  lemma ProviderIsARootCommand(root: Node, parent: seq<string>, p: Node, q: Node)
    requires Built(root, parent) && IsValid(root) && InTree(root, p) && p.completion.commandPathArguments
    ensures p in root.children && IsBare(p) && (InTree(root, q) && q.completion.commandPathArguments ==> q == p)
  {
    hide NodeOk, TextsOk, CompletionOk, Providers;
    ProviderIsCollected(root, p);
    DepthIsPathLength(root, parent, p);
    AcceptedBelow(root, p);
    if InTree(root, q) && q.completion.commandPathArguments {
      ProviderIsCollected(root, q);
      assert Providers(root)[0] == p;
    }
  }

  // ----- What an accepted node shows -----

  function Filter<T>(s: seq<T>, keep: T -> bool): seq<T> {
    if s == [] then [] else (if keep(s[0]) then [s[0]] else []) + Filter(s[1..], keep)
  }

  lemma {:induction false} FilterExactly<T>(s: seq<T>, keep: T -> bool)
    requires Distinct(s)
    ensures Distinct(Filter(s, keep)) && forall x :: x in Filter(s, keep) <==> x in s && keep(x)
  {
    if s != [] {
      assert s == [s[0]] + s[1..];
      DistinctAppend([s[0]], s[1..]);
      FilterExactly(s[1..], keep);
      if keep(s[0]) { DistinctAppend([s[0]], Filter(s[1..], keep)); }
    }
  }

  /** A token is shown unless it names a hidden child. */
  predicate IsShown(n: Node, token: string) {
    token in ByName(n.children) ==> !ByName(n.children)[token].hidden
  }

  lemma {:induction false} NamesAppend(a: seq<Listed>, b: seq<Listed>)
    ensures Names(a + b) == Names(a) + Names(b)
  {
    if a == [] {
      assert a + b == b;
    } else {
      assert (a + b)[0] == a[0] && (a + b)[1..] == a[1..] + b;
      NamesAppend(a[1..], b);
    }
  }

  lemma {:induction false} FilterAppend<T>(a: seq<T>, b: seq<T>, keep: T -> bool)
    ensures Filter(a + b, keep) == Filter(a, keep) + Filter(b, keep)
  {
    if a == [] {
      assert a + b == b;
    } else {
      var first := if keep(a[0]) then [a[0]] else [];
      assert (a + b)[0] == a[0] && (a + b)[1..] == a[1..] + b;
      assert Filter(a + b, keep) == first + Filter(a[1..] + b, keep);
      FilterAppend(a[1..], b, keep);
      Associates(first, Filter(a[1..], keep), Filter(b, keep));
    }
  }

  lemma Associates<T>(a: seq<T>, b: seq<T>, c: seq<T>)
    ensures a + (b + c) == (a + b) + c
  {}

  lemma {:induction false} ListedNames(n: Node, entries: seq<string>)
    requires forall e :: e in entries ==> e in Immediate(n)
    ensures Names(ListEntries(n, entries)) == Filter(entries, t => IsShown(n, t))
  {
    if entries != [] {
      var first := ListEntry(n, entries[0]);
      ListedNames(n, entries[1..]);
      NamesAppend(first, ListEntries(n, entries[1..]));
      EntryIsKnown(n, entries[0]);
      assert Names(first) == if IsShown(n, entries[0]) then [entries[0]] else [];
    }
  }

  lemma EntryIsKnown(n: Node, entry: string)
    requires entry in Immediate(n)
    ensures entry in ByName(n.children) || FindValue(n.values, entry).Some?
  {
    var i :| 0 <= i < |Immediate(n)| && Immediate(n)[i] == entry;
    if i < |n.children| { assert n.children[i] in n.children; } else { assert n.values[i - |n.children|] in n.values; }
  }

  lemma {:induction false} TokensAreShownEntries(n: Node, sections: seq<Section>)
    requires forall e :: e in Entries(sections) ==> e in Immediate(n)
    ensures Tokens(VisibleSections(n, sections)) == Filter(Entries(sections), t => IsShown(n, t))
  {
    if sections != [] {
      forall e | e in sections[0].entries ensures e in Immediate(n) { assert e in Entries(sections); }
      forall e | e in Entries(sections[1..]) ensures e in Immediate(n) { assert e in Entries(sections); }
      ListedNames(n, sections[0].entries);
      TokensAreShownEntries(n, sections[1..]);
      FilterAppend(sections[0].entries, Entries(sections[1..]), t => IsShown(n, t));
    }
  }

  lemma SameNameSameChild(children: seq<Node>, c: Node, d: Node)
    requires Distinct(ChildNames(children)) && c in children && d in children && c.name == d.name
    ensures c == d
  {
    hide ChildNames;
    var i :| 0 <= i < |children| && children[i] == c;
    var j :| 0 <= j < |children| && children[j] == d;
    assert ChildNames(children)[i] == ChildNames(children)[j];
  }

  lemma NamesAreUnique(n: Node, c: Node)
    requires Distinct(Immediate(n)) && c in n.children
    ensures c.name in ByName(n.children) && ByName(n.children)[c.name] == c && FindChild(n.children, c.name) == Some(c)
    ensures c.name !in ValueNames(n.values)
  {
    hide Distinct, ByName, FindChild;
    DistinctAppend(ChildNames(n.children), ValueNames(n.values));
    SameNameSameChild(n.children, c, ByName(n.children)[c.name]);
    SameNameSameChild(n.children, c, FindChild(n.children, c.name).value);
    var i :| 0 <= i < |n.children| && n.children[i] == c;
    assert ChildNames(n.children)[i] == c.name;
  }

  predicate NamesShownChild(n: Node, t: string) {
    exists c :: c in n.children && !c.hidden && c.name == t
  }

  /** Section entries are taken section by section, in order. */
  lemma {:induction false} EntriesInOrder(a: seq<Section>, b: seq<Section>, s: Section)
    ensures Entries(a + b) == Entries(a) + Entries(b) && Entries([s]) == s.entries
  {
    assert Entries([s]) == s.entries + Entries([s][1..]);
    if a == [] {
      assert a + b == b;
    } else {
      assert (a + b)[0] == a[0] && (a + b)[1..] == a[1..] + b;
      EntriesInOrder(a[1..], b, s);
    }
  }

  /** Filtering keeps the order and drops only what is not kept. */
  lemma FilterOne<T>(x: T, keep: T -> bool)
    ensures Filter([x], keep) == if keep(x) then [x] else []
  {}

  /** A visible section keeps its id and title and lists what it shows in order; one that shows nothing is left out. */
  lemma {:induction false} SectionsInOrder(n: Node, a: seq<Section>, b: seq<Section>, s: Section)
    requires forall e :: e in s.entries ==> e in Immediate(n)
    ensures VisibleSections(n, a + b) == VisibleSections(n, a) + VisibleSections(n, b)
    ensures var shown := Filter(s.entries, t => IsShown(n, t)); var v := VisibleSections(n, [s]);
            && (shown == [] ==> v == [])
            && (shown != [] ==> |v| == 1 && v[0].id == s.id && v[0].title == s.title && Names(v[0].entries) == shown)
  {
    ListedNames(n, s.entries);
    NamesOfNone(ListEntries(n, s.entries));
    if a == [] {
      assert a + b == b;
    } else {
      assert (a + b)[0] == a[0] && (a + b)[1..] == a[1..] + b;
      SectionsInOrder(n, a[1..], b, s);
    }
  }

  lemma NamesOfNone(ls: seq<Listed>)
    ensures Names(ls) == [] <==> ls == []
  {}

  /**
   * The immediate tokens are exactly the names of the children that are not hidden and of the values, each once, in the
   * order of the sections.
   */
  lemma ImmediateTokensExactly(n: Node)
    requires NodeOk(n)
    ensures OrderedImmediateTokens(n) == Filter(Entries(n.sections), t => IsShown(n, t))
    ensures Distinct(OrderedImmediateTokens(n))
    ensures forall t :: t in OrderedImmediateTokens(n) <==> NamesShownChild(n, t) || t in ValueNames(n.values)
  {
    var keep := t => IsShown(n, t);
    TokensAreShownEntries(n, n.sections);
    FilterExactly(Entries(n.sections), keep);
    forall t ensures t in OrderedImmediateTokens(n) <==> NamesShownChild(n, t) || t in ValueNames(n.values) {
      ShownTokens(n, t);
    }
  }

  lemma ShownTokens(n: Node, t: string)
    requires Distinct(Immediate(n))
    ensures IsShown(n, t) && t in Immediate(n) <==> NamesShownChild(n, t) || t in ValueNames(n.values)
  {
    forall c | c in n.children ensures ByName(n.children)[c.name] == c && c.name !in ValueNames(n.values) { NamesAreUnique(n, c); }
    if c :| c in n.children && c.name == t {
      var i :| 0 <= i < |n.children| && n.children[i] == c;
      assert Immediate(n)[i] == t;
    } else {
      assert t !in ChildNames(n.children);
    }
  }

  lemma {:induction false} ShownAppends(sections: seq<Section>, byName: map<string, Node>)
    ensures ShownInSections(sections, byName) == Shown(Entries(sections), byName)
  {
    if sections != [] {
      ShownAppends(sections[1..], byName);
      ShownSplits(sections[0].entries, Entries(sections[1..]), byName);
    }
  }

  lemma {:induction false} ShownSplits(a: seq<string>, b: seq<string>, byName: map<string, Node>)
    ensures Shown(a + b, byName) == Shown(a, byName) + Shown(b, byName)
  {
    if a == [] {
      assert a + b == b;
    } else {
      assert (a + b)[0] == a[0] && (a + b)[1..] == a[1..] + b;
      ShownSplits(a[1..], b, byName);
    }
  }

  lemma {:induction false} ShownExactly(entries: seq<string>, byName: map<string, Node>)
    requires Distinct(entries) && forall e :: e in byName ==> byName[e].name == e
    ensures Distinct(Shown(entries, byName))
    ensures forall c :: c in Shown(entries, byName) <==>
              c.name in entries && c.name in byName && byName[c.name] == c && !c.hidden
  {
    if entries != [] {
      var rest := entries[1..];
      assert entries == [entries[0]] + rest;
      DistinctAppend([entries[0]], rest);
      ShownExactly(rest, byName);
      var e := entries[0];
      if e in byName && !byName[e].hidden {
        DistinctAppend([byName[e]], Shown(rest, byName));
      }
    }
  }

  /** The visible children are exactly the children that are not hidden, each once. */
  lemma VisibleChildrenExactly(n: Node)
    requires NodeOk(n)
    ensures Distinct(VisibleChildren(n))
    ensures forall c :: c in VisibleChildren(n) <==> c in n.children && !c.hidden
  {
    hide ByName, ShownInSections, Shown, Entries, ChildNames, ValueNames;
    var byName := ByName(n.children);
    ShownAppends(n.sections, byName);
    ShownExactly(Entries(n.sections), byName);
    forall c | c in n.children ensures c.name in Entries(n.sections) && c.name in byName && byName[c.name] == c {
      NamesAreUnique(n, c);
      var i :| 0 <= i < |n.children| && n.children[i] == c;
      assert Immediate(n)[i] == c.name;
    }
  }
}

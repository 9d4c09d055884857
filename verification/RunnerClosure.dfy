// The files a runner's entry reaches through static imports, and what each import is.
module RunnerClosure {

  type Path = string

  datatype Rule =
    | UnreadableFile | UnresolvableSpecifier | SymlinkEscape | DirectorySpecifier
    | UnclassifiableConstruct | UnprefixedBuiltin | BareSpecifier | OtherRule(name: string)

  datatype Classification = Builtin | EdgeTo(target: Path) | Rejected(rule: Rule)

  // A fixed file system below the distribution root: the static specifiers of every readable
  // file, what exists, which of it is a directory or leads outside, and the path functions.
  datatype FileSystem = FileSystem(
    files: map<Path, seq<string>>,
    existing: set<Path>,
    directories: set<Path>,
    escapes: set<Path>,
    builtinModules: set<string>,
    resolve: (Path, string) -> Path,
    hasScheme: string -> bool,
    otherViolations: Path -> seq<Violation>)

  datatype Violation = Violation(rule: Rule, file: Path, found: string)

  datatype Edge = Edge(from: Path, target: Path, specifier: string)

  const NODE_PREFIX := "node:"

  predicate IsRelative(specifier: string) {
    "./" <= specifier || "../" <= specifier
  }

  // Total: every specifier is a builtin, an edge or a violation.
  function Classify(fs: FileSystem, specifier: string, from: Path): Classification {
    if NODE_PREFIX <= specifier then
      if specifier[|NODE_PREFIX|..] in fs.builtinModules then Builtin else Rejected(UnclassifiableConstruct)
    else if IsRelative(specifier) then
      if '?' in specifier || '#' in specifier then Rejected(UnclassifiableConstruct)
      else
        var target := fs.resolve(from, specifier);
        if target !in fs.existing then Rejected(UnresolvableSpecifier)
        else if target in fs.escapes then Rejected(SymlinkEscape)
        else if target in fs.directories then Rejected(DirectorySpecifier)
        else EdgeTo(target)
    else if "/" <= specifier || fs.hasScheme(specifier) then Rejected(UnclassifiableConstruct)
    else if specifier in fs.builtinModules then Rejected(UnprefixedBuiltin)
    else Rejected(BareSpecifier)
  }

  // Edges lead to existing files inside the root, and nowhere else.
  lemma EdgesAreFiles(fs: FileSystem, specifier: string, from: Path)
    ensures Classify(fs, specifier, from).EdgeTo? <==>
              && IsRelative(specifier) && '?' !in specifier && '#' !in specifier
              && fs.resolve(from, specifier) in fs.existing - fs.escapes - fs.directories
    ensures Classify(fs, specifier, from).EdgeTo? ==>
              Classify(fs, specifier, from).target == fs.resolve(from, specifier)
  {
    if NODE_PREFIX <= specifier { assert specifier[0] == 'n'; }
  }

  // ---------------------------------------------------------------- reachability

  predicate IsSite(fs: FileSystem, file: Path, specifier: string) {
    file in fs.files && specifier in fs.files[file]
  }

  predicate IsEdge(fs: FileSystem, file: Path, specifier: string, target: Path) {
    IsSite(fs, file, specifier) && Classify(fs, specifier, file) == EdgeTo(target)
  }

  ghost predicate Leads(fs: FileSystem, a: Path, b: Path) {
    exists specifier: string :: IsEdge(fs, a, specifier, b)
  }

  ghost predicate LeadsAt(fs: FileSystem, p: seq<Path>, i: nat) {
    i + 1 < |p| ==> Leads(fs, p[i], p[i + 1])
  }

  ghost predicate Route(fs: FileSystem, p: seq<Path>, a: Path, b: Path) {
    p != [] && p[0] == a && p[|p| - 1] == b && forall i: nat :: i + 1 < |p| ==> LeadsAt(fs, p, i)
  }

  ghost predicate Reachable(fs: FileSystem, entry: Path, b: Path) {
    exists p: seq<Path> :: Route(fs, p, entry, b)
  }

  lemma EntryIsReachable(fs: FileSystem, entry: Path)
    ensures Reachable(fs, entry, entry)
  {
    assert Route(fs, [entry], entry, entry);
  }

  lemma ReachableStep(fs: FileSystem, entry: Path, a: Path, specifier: string, b: Path)
    requires Reachable(fs, entry, a) && IsEdge(fs, a, specifier, b)
    ensures Reachable(fs, entry, b)
  {
    var p: seq<Path> :| Route(fs, p, entry, a);
    var longer := p + [b];
    assert Leads(fs, a, b);
    forall i: nat | i + 1 < |longer| ensures LeadsAt(fs, longer, i) {
      if i + 1 < |p| { assert LeadsAt(fs, p, i); }
    }
    assert Route(fs, longer, entry, b);
  }

  // A set that holds the entry and whatever its members lead to holds everything reachable.
  ghost predicate ClosedUnder(fs: FileSystem, nodes: set<Path>) {
    forall a: Path, specifier: string, b: Path :: a in nodes && IsEdge(fs, a, specifier, b) ==> b in nodes
  }

  lemma {:induction false} ClosedHoldsRoute(fs: FileSystem, nodes: set<Path>, p: seq<Path>, i: nat)
    requires ClosedUnder(fs, nodes) && p != [] && p[0] in nodes && i < |p|
    requires forall i: nat :: i + 1 < |p| ==> LeadsAt(fs, p, i)
    ensures p[i] in nodes
    decreases i
  {
    if i > 0 {
      ClosedHoldsRoute(fs, nodes, p, i - 1);
      assert LeadsAt(fs, p, i - 1);
      var specifier :| IsEdge(fs, p[i - 1], specifier, p[i]);
    }
  }

  lemma ClosedHoldsReachable(fs: FileSystem, nodes: set<Path>, entry: Path)
    requires ClosedUnder(fs, nodes) && entry in nodes
    ensures forall b :: Reachable(fs, entry, b) ==> b in nodes
  {
    forall b | Reachable(fs, entry, b) ensures b in nodes {
      var p: seq<Path> :| Route(fs, p, entry, b);
      ClosedHoldsRoute(fs, nodes, p, |p| - 1);
    }
  }

  // ---------------------------------------------------------------- the derivation

  datatype Derivation = Derivation(
    nodes: set<Path>, edges: set<Edge>, builtins: set<string>, violations: set<Violation>)

  ghost predicate HasEdge(fs: FileSystem, nodes: set<Path>, e: Edge) {
    e.from in nodes && IsEdge(fs, e.from, e.specifier, e.target)
  }

  ghost predicate IsBuiltinOf(fs: FileSystem, nodes: set<Path>, file: Path, specifier: string) {
    file in nodes && IsSite(fs, file, specifier) && Classify(fs, specifier, file).Builtin?
  }

  ghost predicate HasBuiltin(fs: FileSystem, nodes: set<Path>, specifier: string) {
    exists file: Path :: IsBuiltinOf(fs, nodes, file, specifier)
  }

  // Why a node's file is at fault: it cannot be read, one of its imports is rejected, or another
  // check objects.
  ghost predicate HasViolation(fs: FileSystem, nodes: set<Path>, v: Violation) {
    && v.file in nodes
    && if v.file !in fs.files then v == Violation(UnreadableFile, v.file, v.file)
       else v in fs.otherViolations(v.file)
            || (IsSite(fs, v.file, v.found) && Classify(fs, v.found, v.file) == Rejected(v.rule))
  }

  ghost predicate Describes(fs: FileSystem, d: Derivation) {
    && (forall e: Edge :: e in d.edges <==> HasEdge(fs, d.nodes, e))
    && (forall specifier: string :: specifier in d.builtins <==> HasBuiltin(fs, d.nodes, specifier))
    && (forall v: Violation :: v in d.violations <==> HasViolation(fs, d.nodes, v))
  }

  ghost predicate IsClosure(fs: FileSystem, entry: Path, d: Derivation) {
    && Describes(fs, d)
    && forall b: Path :: b in d.nodes <==> Reachable(fs, entry, b)
  }

  // What is recorded of a specifier at one site: an edge, or a violation no other check raised.
  ghost predicate HasSiteEdge(d: Derivation, file: Path, specifier: string) {
    exists e :: e in d.edges && e.from == file && e.specifier == specifier
  }

  ghost predicate HasSiteViolation(fs: FileSystem, d: Derivation, file: Path, specifier: string) {
    exists v :: v in d.violations && v.file == file && v.found == specifier && v !in fs.otherViolations(file)
  }

  // Every static specifier of every file read is recorded as exactly one of a builtin, an edge
  // and a violation, with the one target or the one rule it has.
  lemma EverySpecifierIsRecorded(fs: FileSystem, entry: Path, d: Derivation, file: Path, specifier: string)
    requires IsClosure(fs, entry, d) && file in d.nodes && IsSite(fs, file, specifier)
    ensures specifier in d.builtins <==> Classify(fs, specifier, file).Builtin?
    ensures HasSiteEdge(d, file, specifier) <==> Classify(fs, specifier, file).EdgeTo?
    ensures HasSiteViolation(fs, d, file, specifier) ==> Classify(fs, specifier, file).Rejected?
    ensures match Classify(fs, specifier, file)
            case Builtin => true
            case EdgeTo(target) =>
              && Edge(file, target, specifier) in d.edges && target in d.nodes
              && forall e :: e in d.edges && e.from == file && e.specifier == specifier ==> e.target == target
            case Rejected(rule) =>
              && Violation(rule, file, specifier) in d.violations
              && forall v :: v in d.violations && v.file == file && v.found == specifier ==>
                   v.rule == rule || v in fs.otherViolations(file)
  {
    match Classify(fs, specifier, file)
    case Builtin => assert IsBuiltinOf(fs, d.nodes, file, specifier);
    case EdgeTo(target) =>
      assert HasEdge(fs, d.nodes, Edge(file, target, specifier));
      ReachableStep(fs, entry, file, specifier, target);
      BuiltinEverywhere(fs, d.nodes, file, specifier);
    case Rejected(rule) =>
      assert HasViolation(fs, d.nodes, Violation(rule, file, specifier));
      BuiltinEverywhere(fs, d.nodes, file, specifier);
  }

  // Whether a specifier names a builtin does not depend on the file it stands in.
  lemma BuiltinEverywhere(fs: FileSystem, nodes: set<Path>, file: Path, specifier: string)
    ensures HasBuiltin(fs, nodes, specifier) ==> Classify(fs, specifier, file).Builtin?
  {
    if HasBuiltin(fs, nodes, specifier) {
      var other: Path :| IsBuiltinOf(fs, nodes, other, specifier);
    }
  }

  // Without violations the nodes can all be read, and import nothing but builtins and each other.
  lemma NoViolationsMeansClosed(fs: FileSystem, entry: Path, d: Derivation)
    requires IsClosure(fs, entry, d) && d.violations == {}
    ensures forall file :: file in d.nodes ==> file in fs.files
    ensures forall file, specifier :: file in d.nodes && IsSite(fs, file, specifier) ==>
              Classify(fs, specifier, file).Builtin?
              || (Classify(fs, specifier, file).EdgeTo? && Classify(fs, specifier, file).target in d.nodes)
  {
    forall file | file in d.nodes ensures file in fs.files {
      assert Violation(UnreadableFile, file, file) !in d.violations;
      assert !HasViolation(fs, d.nodes, Violation(UnreadableFile, file, file));
    }
    forall file, specifier | file in d.nodes && IsSite(fs, file, specifier)
      ensures Classify(fs, specifier, file).Builtin?
              || (Classify(fs, specifier, file).EdgeTo? && Classify(fs, specifier, file).target in d.nodes)
    {
      EverySpecifierIsRecorded(fs, entry, d, file, specifier);
    }
  }

  // ---------------------------------------------------------------- the worklist

  // Adding one file to the nodes adds what that file contributes.
  lemma DescribesMore(fs: FileSystem, before: Derivation, current: Path, after: Derivation)
    requires Describes(fs, before) && current !in before.nodes && after.nodes == before.nodes + {current}
    requires forall e: Edge :: e in after.edges <==> e in before.edges || HasEdge(fs, {current}, e)
    requires forall s: string :: s in after.builtins <==> s in before.builtins || IsBuiltinOf(fs, {current}, current, s)
    requires forall v: Violation :: v in after.violations <==> v in before.violations || HasViolation(fs, {current}, v)
    ensures Describes(fs, after)
  {
    forall s: string ensures s in after.builtins <==> HasBuiltin(fs, after.nodes, s) {
      if IsBuiltinOf(fs, {current}, current, s) { assert IsBuiltinOf(fs, after.nodes, current, s); }
      if s in before.builtins {
        var file :| IsBuiltinOf(fs, before.nodes, file, s);
        assert IsBuiltinOf(fs, after.nodes, file, s);
      }
      if HasBuiltin(fs, after.nodes, s) {
        var file :| IsBuiltinOf(fs, after.nodes, file, s);
        if file != current { assert IsBuiltinOf(fs, before.nodes, file, s); }
      }
    }
  }

  // What the specifiers read so far contribute.
  ghost predicate SiteEdge(fs: FileSystem, file: Path, sites: seq<string>, e: Edge) {
    e.from == file && e.specifier in sites && Classify(fs, e.specifier, file) == EdgeTo(e.target)
  }

  method ReadSites(fs: FileSystem, file: Path)
    returns (edges: set<Edge>, builtins: set<string>, rejected: set<Violation>, targets: seq<Path>)
    requires file in fs.files
    ensures forall e: Edge :: e in edges <==> HasEdge(fs, {file}, e)
    ensures forall s: string :: s in builtins <==> IsBuiltinOf(fs, {file}, file, s)
    ensures forall v: Violation :: v in rejected <==>
              v.file == file && IsSite(fs, file, v.found) && Classify(fs, v.found, file) == Rejected(v.rule)
    ensures forall e: Edge :: e in edges ==> e.target in targets
    ensures forall t :: t in targets ==> exists e: Edge :: e in edges && e.target == t
  {
    edges, builtins, rejected, targets := {}, {}, {}, [];
    var sites := fs.files[file];
    for i := 0 to |sites|
      invariant forall e: Edge :: e in edges <==> SiteEdge(fs, file, sites[..i], e)
      invariant forall s: string :: s in builtins <==> s in sites[..i] && Classify(fs, s, file).Builtin?
      invariant forall v: Violation :: v in rejected <==>
                  v.file == file && v.found in sites[..i] && Classify(fs, v.found, file) == Rejected(v.rule)
      invariant forall e: Edge :: e in edges ==> e.target in targets
      invariant forall t :: t in targets ==> exists e: Edge :: e in edges && e.target == t
    {
      assert sites[..i + 1] == sites[..i] + [sites[i]];
      match Classify(fs, sites[i], file)
      case Builtin => builtins := builtins + {sites[i]};
      case EdgeTo(target) =>
        edges := edges + {Edge(file, target, sites[i])};
        targets := targets + [target];
      case Rejected(rule) => rejected := rejected + {Violation(rule, file, sites[i])};
    }
    assert sites[..|sites|] == sites;
  }

  function SetOf(violations: seq<Violation>, file: Path): set<Violation> {
    set v | v in violations && v.file == file
  }

  // Not yet visited, but on the way.
  ghost predicate Pending(fs: FileSystem, nodes: set<Path>, queue: seq<Path>) {
    forall a: Path, specifier: string, b: Path :: a in nodes && IsEdge(fs, a, specifier, b) ==> b in nodes || b in queue
  }

  // Reads one new file and records what it contributes; its edges' targets are next.
  method Visit(fs: FileSystem, before: Derivation, current: Path) returns (d: Derivation, targets: seq<Path>)
    requires Describes(fs, before) && current !in before.nodes
    ensures Describes(fs, d) && d.nodes == before.nodes + {current}
    ensures forall specifier: string, b: Path :: IsEdge(fs, current, specifier, b) ==> b in targets
    ensures forall b :: b in targets ==> Leads(fs, current, b) && b in fs.existing
  {
    if current !in fs.files {
      var unreadable := Violation(UnreadableFile, current, current);
      d := Derivation(before.nodes + {current}, before.edges, before.builtins, before.violations + {unreadable});
      targets := [];
      DescribesMore(fs, before, current, d);
      return;
    }
    var edges, builtins, rejected, found := ReadSites(fs, current);
    targets := found;
    d := Derivation(before.nodes + {current}, before.edges + edges, before.builtins + builtins,
                    before.violations + rejected + SetOf(fs.otherViolations(current), current));
    DescribesMore(fs, before, current, d);
    forall specifier: string, b: Path | IsEdge(fs, current, specifier, b) ensures b in targets {
      assert HasEdge(fs, {current}, Edge(current, b, specifier));
    }
    forall b | b in targets ensures Leads(fs, current, b) && b in fs.existing {
      var e: Edge :| e in edges && e.target == b;
      assert IsEdge(fs, current, e.specifier, b);
      EdgesAreFiles(fs, e.specifier, current);
    }
  }

  lemma PendingMore(fs: FileSystem, nodes: set<Path>, queue: seq<Path>, current: Path, targets: seq<Path>)
    requires Pending(fs, nodes, [current] + queue)
    requires forall specifier: string, b: Path :: IsEdge(fs, current, specifier, b) ==> b in targets
    ensures Pending(fs, nodes + {current}, queue + targets)
  {
    forall a: Path, specifier: string, b: Path | a in nodes + {current} && IsEdge(fs, a, specifier, b)
      ensures b in nodes + {current} || b in queue + targets
    {
      if a in nodes && b !in nodes { assert b in [current] + queue; }
    }
  }

  ghost predicate OnTheWay(fs: FileSystem, entry: Path, b: Path) {
    Reachable(fs, entry, b) && b in fs.existing + {entry}
  }

  method DeriveRunnerClosure(fs: FileSystem, entry: Path) returns (d: Derivation)
    ensures IsClosure(fs, entry, d)
  {
    d := Derivation({}, {}, {}, {});
    var queue := [entry];
    ghost var universe := fs.existing + {entry};
    EntryIsReachable(fs, entry);
    while |queue| > 0
      invariant Describes(fs, d)
      invariant forall b :: b in d.nodes ==> OnTheWay(fs, entry, b)
      invariant forall b :: b in queue ==> OnTheWay(fs, entry, b)
      invariant entry in d.nodes || entry in queue
      invariant Pending(fs, d.nodes, queue)
      decreases |universe - d.nodes|, |queue|
    {
      var current, rest := queue[0], queue[1..];
      assert queue == [current] + rest && OnTheWay(fs, entry, current);
      if current in d.nodes {
        queue := rest;
        continue;
      }
      SmallerSet(universe - (d.nodes + {current}), universe - d.nodes);
      ghost var nodes := d.nodes;
      var targets;
      d, targets := Visit(fs, d, current);
      PendingMore(fs, nodes, rest, current, targets);
      forall b | b in targets ensures OnTheWay(fs, entry, b) {
        var specifier :| IsEdge(fs, current, specifier, b);
        ReachableStep(fs, entry, current, specifier, b);
      }
      queue := rest + targets;
    }
    assert ClosedUnder(fs, d.nodes);
    ClosedHoldsReachable(fs, d.nodes, entry);
  }

  lemma SmallerSet(a: set<Path>, b: set<Path>)
    requires a < b
    ensures |a| < |b|
  {
    var x :| x in b && x !in a;
    assert a <= b - {x};
    SubsetSize(a, b - {x});
  }

  lemma {:induction false} SubsetSize(a: set<Path>, b: set<Path>)
    requires a <= b
    ensures |a| <= |b|
    decreases |a|
  {
    if a != {} {
      var x :| x in a;
      SubsetSize(a - {x}, b - {x});
    }
  }
}

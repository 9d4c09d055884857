// Enumerating a package folder: real directories are descended, symlinked ones never, and the
// number of names looked at is bounded.
module FolderWalk {
  import opened Prelude

  // What lstat and readdir find at a path. `Locked` is a directory that cannot be read; `Gone`
  // cannot be looked at.
  datatype Tree = Dir(children: seq<Child>) | Locked | File | Link(toDirectory: bool) | Gone

  // The names of a directory come sorted and distinct, and hold no separator.
  datatype Child = Child(name: string, tree: Tree)

  // A path relative to the root, by segments.
  type RelPath = seq<string>

  datatype Failure = RootMissing | RootNotDirectory | RootUnreadable | RootIsSymlink | BoundExceeded | EntryUnreadable

  datatype Outcome = Walked(entries: seq<RelPath>) | Failed(failure: Failure)

  // ---------------------------------------------------------------- what there is to find

  // Every entry below that is no directory, reached through real directories only.
  function Entries(path: RelPath, children: seq<Child>): seq<RelPath>
    decreases children, 0
  {
    if children == [] then []
    else EntriesOf(path, children[0]) + Entries(path, children[1..])
  }

  function EntriesOf(path: RelPath, child: Child): seq<RelPath>
    decreases child, 1
  {
    match child.tree
    case Dir(children) => Entries(path + [child.name], children)
    case File => [path + [child.name]]
    case Link(toDirectory) => if toDirectory then [] else [path + [child.name]]
    case Locked => []
    case Gone => []
  }

  // The names in every directory descended.
  function Names(children: seq<Child>): nat
    decreases children, 0
  {
    if children == [] then 0 else NamesOf(children[0]) + Names(children[1..])
  }

  function NamesOf(child: Child): nat
    decreases child, 1
  {
    1 + if child.tree.Dir? then Names(child.tree.children) else 0
  }

  // Whether something on the way cannot be read.
  predicate Fails(children: seq<Child>)
    decreases children, 0
  {
    children != [] && (FailsAt(children[0]) || Fails(children[1..]))
  }

  predicate FailsAt(child: Child)
    decreases child, 1
  {
    child.tree.Gone? || child.tree.Locked? || (child.tree.Dir? && Fails(child.tree.children))
  }

  // ---------------------------------------------------------------- the stack

  datatype Frame = Frame(path: RelPath, tree: Tree)

  function FrameEntries(f: Frame): seq<RelPath> {
    if f.tree.Dir? then Entries(f.path, f.tree.children) else []
  }

  function FrameNames(f: Frame): nat {
    if f.tree.Dir? then Names(f.tree.children) else 0
  }

  predicate FrameFails(f: Frame) {
    f.tree.Locked? || (f.tree.Dir? && Fails(f.tree.children))
  }

  function StackEntries(stack: seq<Frame>): multiset<RelPath> {
    if stack == [] then multiset{}
    else StackEntries(stack[..|stack| - 1]) + multiset(FrameEntries(stack[|stack| - 1]))
  }

  function StackNames(stack: seq<Frame>): nat {
    if stack == [] then 0 else StackNames(stack[..|stack| - 1]) + FrameNames(stack[|stack| - 1])
  }

  predicate StackFails(stack: seq<Frame>) {
    stack != [] && (StackFails(stack[..|stack| - 1]) || FrameFails(stack[|stack| - 1]))
  }

  lemma Pushed(stack: seq<Frame>, f: Frame)
    ensures StackEntries(stack + [f]) == StackEntries(stack) + multiset(FrameEntries(f))
    ensures StackNames(stack + [f]) == StackNames(stack) + FrameNames(f)
    ensures StackFails(stack + [f]) <==> StackFails(stack) || FrameFails(f)
  {
    assert (stack + [f])[..|stack|] == stack;
  }

  // What is still to be done: the names left in this directory and on the stack, and the frames.
  function Work(stack: seq<Frame>): nat {
    StackNames(stack) + |stack|
  }

  lemma FirstChild(path: RelPath, children: seq<Child>, i: nat)
    requires i < |children|
    ensures multiset(Entries(path, children[i..]))
            == multiset(EntriesOf(path, children[i])) + multiset(Entries(path, children[i + 1..]))
    ensures Names(children[i..]) == NamesOf(children[i]) + Names(children[i + 1..])
    ensures Fails(children[i..]) <==> FailsAt(children[i]) || Fails(children[i + 1..])
  {
    assert children[i..][0] == children[i] && children[i..][1..] == children[i + 1..];
  }

  // ---------------------------------------------------------------- the walk

  // Emits an entry, or pushes a directory to read later.
  method VisitEntry(path: RelPath, child: Child, entries: seq<RelPath>, stack: seq<Frame>)
    returns (readable: bool, entries': seq<RelPath>, stack': seq<Frame>)
    ensures readable <==> !child.tree.Gone?
    ensures readable ==>
              && multiset(entries') + StackEntries(stack')
                 == multiset(entries) + StackEntries(stack) + multiset(EntriesOf(path, child))
              && 1 + StackNames(stack') == StackNames(stack) + NamesOf(child)
              && (StackFails(stack') <==> StackFails(stack) || FailsAt(child))
              && |stack'| <= |stack| + 1
  {
    readable, entries', stack' := true, entries, stack;
    var here := path + [child.name];
    match child.tree
    case Gone => readable := false;
    case Link(toDirectory) =>
      if !toDirectory { entries' := entries + [here]; }
    case Dir(_) =>
      Pushed(stack, Frame(here, child.tree));
      stack' := stack + [Frame(here, child.tree)];
    case Locked =>
      Pushed(stack, Frame(here, child.tree));
      stack' := stack + [Frame(here, child.tree)];
    case File =>
      entries' := entries + [here];
  }

  // Everything there is to find: emitted, below a directory on the stack, or still ahead here.
  ghost predicate Balanced(goal: multiset<RelPath>, entries: seq<RelPath>, stack: seq<Frame>, ahead: seq<RelPath>) {
    goal == multiset(entries) + StackEntries(stack) + multiset(ahead)
  }

  // Reads one directory: entries are emitted, real directories pushed.
  method ReadDirectory(path: RelPath, children: seq<Child>, bound: nat, entries0: seq<RelPath>, stack0: seq<Frame>,
    count0: nat, ghost goal: multiset<RelPath>)
    returns (failure: Option<Failure>, entries: seq<RelPath>, stack: seq<Frame>, count: nat)
    requires count0 <= bound && Balanced(goal, entries0, stack0, Entries(path, children))
    ensures failure.None? ==>
              && Balanced(goal, entries, stack, [])
              && count + StackNames(stack) == count0 + StackNames(stack0) + Names(children)
              && (StackFails(stack) <==> StackFails(stack0) || Fails(children))
              && count <= bound
              && Work(stack) <= Work(stack0) + Names(children)
    ensures failure.Some? ==> failure.value.BoundExceeded? || failure.value.EntryUnreadable?
    ensures failure == Some(BoundExceeded) ==> count0 + Names(children) > bound
    ensures failure == Some(EntryUnreadable) ==> Fails(children)
  {
    entries, stack, count := entries0, stack0, count0;
    assert children[0..] == children;
    for i := 0 to |children|
      invariant Balanced(goal, entries, stack, Entries(path, children[i..]))
      invariant count + StackNames(stack) + Names(children[i..]) == count0 + StackNames(stack0) + Names(children)
      invariant StackFails(stack) || Fails(children[i..]) <==> StackFails(stack0) || Fails(children)
      invariant count0 <= count <= bound && count + Names(children[i..]) <= count0 + Names(children)
      invariant Fails(children[i..]) ==> Fails(children)
      invariant |stack| <= |stack0| + (count - count0)
    {
      FirstChild(path, children, i);
      count := count + 1;
      if count > bound { return Some(BoundExceeded), entries, stack, count; }
      var readable, entries', stack' := VisitEntry(path, children[i], entries, stack);
      if !readable { return Some(EntryUnreadable), entries, stack, count; }
      entries, stack := entries', stack';
    }
    assert children[|children|..] == [];
    failure := None;
  }

  lemma RootFrame(root: Tree)
    requires root.Dir?
    ensures StackEntries([Frame([], root)]) == multiset(Entries([], root.children))
    ensures StackNames([Frame([], root)]) == Names(root.children)
    ensures StackFails([Frame([], root)]) <==> Fails(root.children)
  {
    Pushed([], Frame([], root));
    assert [] + [Frame([], root)] == [Frame([], root)];
  }

  lemma Popped(stack: seq<Frame>)
    requires stack != []
    ensures var rest, f := stack[..|stack| - 1], stack[|stack| - 1];
            && StackEntries(stack) == StackEntries(rest) + multiset(FrameEntries(f))
            && StackNames(stack) == StackNames(rest) + FrameNames(f)
            && (StackFails(stack) <==> StackFails(rest) || FrameFails(f))
  {}

  // Works the stack off from the root, which is a directory that can be read.
  method WalkStack(root: Tree, bound: nat) returns (r: Outcome)
    requires root.Dir?
    ensures r.Walked? ==> Names(root.children) <= bound && !Fails(root.children)
    ensures r.Walked? ==> multiset(r.entries) == multiset(Entries([], root.children))
    ensures r.Failed? ==> r.failure.BoundExceeded? || r.failure.EntryUnreadable?
    ensures r == Failed(BoundExceeded) ==> Names(root.children) > bound
    ensures r == Failed(EntryUnreadable) ==> Fails(root.children)
  {
    var stack, entries, count := [Frame([], root)], [], 0;
    ghost var goal := multiset(Entries([], root.children));
    RootFrame(root);
    while |stack| > 0
      invariant Balanced(goal, entries, stack, [])
      invariant count + StackNames(stack) == Names(root.children) && count <= bound
      invariant StackFails(stack) <==> Fails(root.children)
      decreases Work(stack)
    {
      Popped(stack);
      var frame, rest := stack[|stack| - 1], stack[..|stack| - 1];
      if frame.tree.Locked? { return Failed(EntryUnreadable); }
      if !frame.tree.Dir? {
        stack := rest;
        continue;
      }
      var failure, entries', stack', count' :=
        ReadDirectory(frame.path, frame.tree.children, bound, entries, rest, count, goal);
      if failure.Some? { return Failed(failure.value); }
      entries, stack, count := entries', stack', count';
    }
    return Walked(entries);
  }

  // The walk fails on the bound or on an entry only when there is a reason to, and otherwise
  // returns every entry.
  method WalkFolder(root: Tree, bound: nat) returns (r: Outcome)
    ensures r.Walked? <==> root.Dir? && Names(root.children) <= bound && !Fails(root.children)
    ensures r.Walked? ==> multiset(r.entries) == multiset(Entries([], root.children))
    ensures r == Failed(BoundExceeded) ==> root.Dir? && Names(root.children) > bound
    ensures r == Failed(EntryUnreadable) ==> root.Dir? && Fails(root.children)
    ensures root.Dir? && !Fails(root.children) ==> (r == Failed(BoundExceeded) <==> Names(root.children) > bound)
    ensures r == Failed(RootIsSymlink) <==> root.Link?
  {
    if root.Link? { return Failed(RootIsSymlink); }
    if root.Gone? { return Failed(RootMissing); }
    if root.File? { return Failed(RootNotDirectory); }
    if root.Locked? { return Failed(RootUnreadable); }
    r := WalkStack(root, bound);
  }

  // ---------------------------------------------------------------- what the entries are

  ghost predicate DistinctNames(children: seq<Child>)
    decreases children, 0
  {
    && (forall i, j :: 0 <= i < j < |children| ==> children[i].name != children[j].name)
    && (forall i :: 0 <= i < |children| ==> NamesDistinctBelow(children[i]))
  }

  ghost predicate NamesDistinctBelow(child: Child)
    decreases child, 1
  {
    child.tree.Dir? ==> DistinctNames(child.tree.children)
  }

  // `p` leads from a directory through real directories to an entry that is no directory.
  ghost predicate Lists(children: seq<Child>, p: RelPath)
    decreases |p|, 1
  {
    p != [] && exists i :: 0 <= i < |children| && ListsAt(children[i], p)
  }

  ghost predicate ListsAt(child: Child, p: RelPath)
    requires p != []
    decreases |p|, 0
  {
    child.name == p[0] &&
    if |p| == 1 then child.tree.File? || child.tree == Link(false)
    else child.tree.Dir? && Lists(child.tree.children, p[1..])
  }

  // The entries are exactly the listed paths, so nothing below a symlinked directory is one.
  lemma {:induction false} EntriesAreListed(path: RelPath, children: seq<Child>, p: RelPath)
    ensures path + p in Entries(path, children) <==> Lists(children, p)
    decreases children, 0
  {
    if children == [] {
    } else {
      var rest := children[1..];
      EntriesOfAreListed(path, children[0], p);
      EntriesAreListed(path, rest, p);
      if Lists(rest, p) {
        var i :| 0 <= i < |rest| && ListsAt(rest[i], p);
        assert children[i + 1] == rest[i];
      }
      if Lists(children, p) {
        var i :| 0 <= i < |children| && ListsAt(children[i], p);
        if i > 0 { assert rest[i - 1] == children[i]; }
      }
    }
  }

  lemma {:induction false} EntriesOfAreListed(path: RelPath, child: Child, p: RelPath)
    ensures path + p in EntriesOf(path, child) <==> p != [] && ListsAt(child, p)
    decreases child, 1
  {
    var here := path + [child.name];
    match child.tree
    case Dir(children) =>
      if p != [] && p[0] == child.name {
        assert path + p == here + p[1..];
        EntriesAreListed(here, children, p[1..]);
      } else {
        BelowStartsWith(here, children);
        assert p == [] ==> |path + p| < |here|;
        assert p != [] ==> (path + p)[|path|] == p[0] && here[|path|] == child.name;
        assert !(here <= path + p);
      }
    case _ =>
      if path + p == here { assert p == (path + p)[|path|..] == here[|path|..] == [child.name]; }
      if p == [child.name] { assert path + p == here; }
  }

  // Below a directory every path starts with it, and goes on.
  lemma {:induction false} BelowStartsWith(path: RelPath, children: seq<Child>)
    ensures forall q :: q in Entries(path, children) ==> |q| > |path| && path <= q
    decreases children, 0
  {
    if children != [] {
      var here := path + [children[0].name];
      if children[0].tree.Dir? {
        BelowStartsWith(here, children[0].tree.children);
        forall q | q in EntriesOf(path, children[0]) ensures |q| > |path| && path <= q {
          assert here <= q && path == here[..|path|];
        }
      }
      BelowStartsWith(path, children[1..]);
    }
  }

  ghost predicate Distinct(paths: seq<RelPath>) {
    forall i, j :: 0 <= i < j < |paths| ==> paths[i] != paths[j]
  }

  lemma DistinctJoin(a: seq<RelPath>, b: seq<RelPath>)
    requires Distinct(a) && Distinct(b) && forall q :: q in a ==> q !in b
    ensures Distinct(a + b)
  {
    var all := a + b;
    forall i, j | 0 <= i < j < |all| ensures all[i] != all[j] {
      if i < |a| && j >= |a| { assert all[i] in a && all[j] in b; }
    }
  }

  // No entry is listed twice.
  lemma {:induction false} EntriesAreDistinct(path: RelPath, children: seq<Child>)
    requires DistinctNames(children)
    ensures Distinct(Entries(path, children))
    decreases children, 0
  {
    if children != [] {
      var first, rest := children[0], children[1..];
      forall i | 0 <= i < |rest| ensures NamesDistinctBelow(rest[i]) { assert rest[i] == children[i + 1]; }
      EntriesAreDistinct(path, rest);
      assert NamesDistinctBelow(first);
      EntriesOfAreDistinct(path, first);
      forall q | q in EntriesOf(path, first) ensures q !in Entries(path, rest) {
        OneChildOnly(path, children, q);
      }
      DistinctJoin(EntriesOf(path, first), Entries(path, rest));
    }
  }

  lemma {:induction false} EntriesOfAreDistinct(path: RelPath, child: Child)
    requires NamesDistinctBelow(child)
    ensures Distinct(EntriesOf(path, child))
    decreases child, 1
  {
    if child.tree.Dir? { EntriesAreDistinct(path + [child.name], child.tree.children); }
  }

  lemma OneChildOnly(path: RelPath, children: seq<Child>, q: RelPath)
    requires children != [] && DistinctNames(children) && q in EntriesOf(path, children[0])
    ensures q !in Entries(path, children[1..])
  {
    BelowStartsWith(path, [children[0]]);
    assert [children[0]][1..] == [] && Entries(path, [children[0]]) == EntriesOf(path, children[0]) + [];
    assert q in Entries(path, [children[0]]);
    var p := q[|path|..];
    assert q == path + p;
    EntriesOfAreListed(path, children[0], p);
    EntriesAreListed(path, children[1..], p);
    OtherNamesDoNotList(children, p);
  }

  lemma OtherNamesDoNotList(children: seq<Child>, p: RelPath)
    requires children != [] && DistinctNames(children) && p != [] && p[0] == children[0].name
    ensures !Lists(children[1..], p)
  {
    var rest := children[1..];
    forall i | 0 <= i < |rest| ensures !ListsAt(rest[i], p) {
      assert rest[i] == children[i + 1] && children[i + 1].name != children[0].name;
    }
  }

  // What the walk returns, seen from outside: every path that leads through real directories to
  // something that is no directory, once.
  lemma WalkListsEachOnce(children: seq<Child>, entries: seq<RelPath>, p: RelPath)
    requires DistinctNames(children) && multiset(entries) == multiset(Entries([], children))
    ensures p in entries <==> Lists(children, p)
    ensures Distinct(entries)
  {
    EntriesAreListed([], children, p);
    assert [] + p == p;
    EntriesAreDistinct([], children);
    assert p in entries <==> p in multiset(entries);
    assert p in Entries([], children) <==> p in multiset(Entries([], children));
    DistinctIsOnce(Entries([], children));
    OnceIsDistinct(entries);
  }

  lemma {:induction false} DistinctIsOnce(paths: seq<RelPath>)
    requires Distinct(paths)
    ensures forall q :: multiset(paths)[q] <= 1
  {
    if paths != [] {
      var rest := paths[1..];
      assert paths == [paths[0]] + rest;
      assert Distinct(rest);
      DistinctIsOnce(rest);
      forall i | 0 <= i < |rest| ensures rest[i] != paths[0] {
        assert rest[i] == paths[i + 1];
      }
      assert paths[0] !in rest;
      assert multiset(paths) == multiset{paths[0]} + multiset(rest);
    }
  }

  lemma OnceIsDistinct(paths: seq<RelPath>)
    requires forall q :: multiset(paths)[q] <= 1
    ensures Distinct(paths)
  {
    forall i, j | 0 <= i < j < |paths| ensures paths[i] != paths[j] {
      var q, rest := paths[i], paths[i + 1..];
      assert paths == paths[..i] + ([q] + rest);
      assert multiset(paths) == multiset(paths[..i]) + multiset{q} + multiset(rest);
      assert 1 + multiset(rest)[q] <= multiset(paths)[q] <= 1;
      assert q !in multiset(rest);
      assert paths[j] == rest[j - i - 1];
    }
  }
}

// The in-memory engine: a seeded tree, staged writes and deletions, and the promotion of both
// at commit.
module FakeEngine {
  import opened Prelude
  import opened Wire
  import opened Directives
  import opened EmitRejection

  type Files = map<string, string>

  // posix path functions.
  datatype Paths = Paths(dirname: string -> string, basename: string -> string, join: (string, string) -> string)

  // What JSON.stringify made of a batch: it may throw, or lose values on the way.
  datatype Encoding = Throws | Encoded(size: nat, faithful: bool)

  datatype Batch = Batch(force: bool, instructions: seq<Directive>, encoding: Encoding)

  // ---------------------------------------------------------------- the engine as a plain map

  datatype Step = Done(files: Files) | Refused(code: Code)

  predicate Effective(envelope: bool, force: Option<bool>) {
    envelope || (force.Some? && force.value)
  }

  function RenameTarget(paths: Paths, path: string, newName: string): string {
    var dir := paths.dirname(path);
    if dir == "." then newName else paths.join(dir, newName)
  }

  function MoveTarget(paths: Paths, path: string, toDir: string): string {
    paths.join(toDir, paths.basename(path))
  }

  // One directive on a map from paths to contents.
  function Apply(paths: Paths, files: Files, d: Directive, envelope: bool): Step {
    match d
    case Create(path, template, _, force) =>
      if path in files && !Effective(envelope, force) then Refused(Collision) else Done(files[path := template])
    case Modify(path, content) =>
      if path !in files then Refused(NotFound) else Done(files[path := content])
    case Delete(path) => Done(files - {path})
    case Rename(path, newName, force) =>
      if path !in files then Refused(NotFound)
      else
        var target := RenameTarget(paths, path, newName);
        if target in files && !Effective(envelope, force) then Refused(Collision)
        else Done((files - {path})[target := files[path]])
    case Copy(from, target, force) =>
      if from !in files then Refused(NotFound)
      else if target in files && !Effective(envelope, force) then Refused(Collision)
      else Done(files[target := files[from]])
    case CopyIn(_, target, force) =>
      if target in files && !Effective(envelope, force) then Refused(Collision) else Done(files)
    case Move(path, toDir, force) =>
      if path !in files then Refused(NotFound)
      else
        var target := MoveTarget(paths, path, toDir);
        if target != path && target in files && !Effective(envelope, force) then Refused(Collision)
        else Done((files - {path})[target := files[path]])
  }

  datatype Outcome = Outcome(files: Files, refused: Option<Code>, applied: nat)

  // The directives in order, up to the first refusal.
  function ApplyAll(paths: Paths, files: Files, instructions: seq<Directive>, envelope: bool): (o: Outcome)
    ensures o.applied <= |instructions|
    ensures o.refused.None? ==> o.applied == |instructions|
    decreases |instructions|
  {
    if instructions == [] then Outcome(files, None, 0)
    else
      match Apply(paths, files, instructions[0], envelope)
      case Refused(code) => Outcome(files, Some(code), 0)
      case Done(next) =>
        var rest := ApplyAll(paths, next, instructions[1..], envelope);
        Outcome(rest.files, rest.refused, rest.applied + 1)
  }

  lemma FrontOfCons(instructions: seq<Directive>, n: nat)
    requires n < |instructions|
    ensures instructions[..n + 1][0] == instructions[0] && instructions[..n + 1][1..] == instructions[1..][..n]
  {}

  // A refusal at index `i` leaves exactly the first `i` directives applied, and the next one is
  // what the map refuses.
  lemma {:induction false} RefusalLeavesThePrefix(
      paths: Paths, files: Files, instructions: seq<Directive>, envelope: bool)
    ensures var o := ApplyAll(paths, files, instructions, envelope);
            && ApplyAll(paths, files, instructions[..o.applied], envelope) == Outcome(o.files, None, o.applied)
            && (o.refused.Some? ==> o.applied < |instructions|
                                    && Apply(paths, o.files, instructions[o.applied], envelope)
                                       == Refused(o.refused.value))
    decreases |instructions|
  {
    if instructions != [] {
      var step := Apply(paths, files, instructions[0], envelope);
      if step.Done? {
        var rest := instructions[1..];
        RefusalLeavesThePrefix(paths, step.files, rest, envelope);
        FrontOfCons(instructions, ApplyAll(paths, step.files, rest, envelope).applied);
      }
    }
  }

  // Where a sequence of directives is cut into batches does not matter to the files, nor to which
  // directive is refused.
  lemma {:induction false} BatchingDoesNotMatter(
      paths: Paths, files: Files, front: seq<Directive>, back: seq<Directive>, envelope: bool)
    ensures var first := ApplyAll(paths, files, front, envelope);
            var whole := ApplyAll(paths, files, front + back, envelope);
            if first.refused.Some? then whole == first
            else
              var second := ApplyAll(paths, first.files, back, envelope);
              whole == Outcome(second.files, second.refused, |front| + second.applied)
    decreases |front|
  {
    if front == [] {
      assert front + back == back;
    } else {
      assert (front + back)[0] == front[0] && (front + back)[1..] == front[1..] + back;
      var step := Apply(paths, files, front[0], envelope);
      if step.Done? { BatchingDoesNotMatter(paths, step.files, front[1..], back, envelope); }
    }
  }

  // A batch of one directive is that directive.
  lemma LoneDirective(paths: Paths, files: Files, d: Directive, envelope: bool)
    ensures ApplyAll(paths, files, [d], envelope)
         == match Apply(paths, files, d, envelope)
            case Done(next) => Outcome(next, None, 1)
            case Refused(code) => Outcome(files, Some(code), 0)
  {
    assert [d][1..] == [];
  }

  // Refused directives blame a source that is missing or a target that is taken, never both wrongly.
  lemma RefusalMeans(paths: Paths, files: Files, d: Directive, envelope: bool)
    requires Apply(paths, files, d, envelope).Refused?
    ensures DirectiveLevel(Apply(paths, files, d, envelope).code)
    ensures Apply(paths, files, d, envelope).code.NotFound? <==> !d.CopyIn? && !d.Create? && PrimaryPath(d) !in files
  {
  }

  // Both hold the same at `p`, or both hold nothing there.
  predicate Agree(a: Files, b: Files, p: string) {
    (p in a <==> p in b) && (p in a && p in b ==> a[p] == b[p])
  }

  ghost predicate SameElsewhere(a: Files, b: Files, touched: set<string>) {
    forall p :: p !in touched ==> Agree(a, b, p)
  }

  // The path a directive writes; a deletion writes none, and the bytes of a copy-in are not kept.
  function Written(paths: Paths, d: Directive): Option<string> {
    match d
    case Create(path, _, _, _) => Some(path)
    case Modify(path, _) => Some(path)
    case Copy(_, target, _) => Some(target)
    case Rename(path, newName, _) =>
      Some(if paths.dirname(path) == "." then newName else paths.join(paths.dirname(path), newName))
    case Move(path, toDir, _) => Some(paths.join(toDir, paths.basename(path)))
    case _ => None
  }

  // The path a directive empties.
  function Emptied(d: Directive): Option<string> {
    match d
    case Delete(path) => Some(path)
    case Rename(path, _, _) => Some(path)
    case Move(path, _, _) => Some(path)
    case _ => None
  }

  // What the written path is to hold: the directive's own text, or that of its source.
  function Brought(files: Files, d: Directive): Option<string> {
    match d
    case Create(_, template, _, _) => Some(template)
    case Modify(_, content) => Some(content)
    case Copy(from, _, _) => if from in files then Some(files[from]) else None
    case Rename(path, _, _) => if path in files then Some(files[path]) else None
    case Move(path, _, _) => if path in files then Some(files[path]) else None
    case _ => None
  }

  // An applied directive leaves its content at the path it writes and nothing at the path it
  // empties, and no other path changes: a copy keeps its source, a move onto itself its file.
  lemma AppliedMeans(paths: Paths, files: Files, d: Directive, envelope: bool)
    requires Apply(paths, files, d, envelope).Done?
    ensures var after, written, emptied := Apply(paths, files, d, envelope).files, Written(paths, d), Emptied(d);
            && (written.Some? ==> written.value in after && Brought(files, d) == Some(after[written.value]))
            && (emptied.Some? && written != emptied ==> emptied.value !in after)
            && SameElsewhere(files, after, (if written.Some? then {written.value} else {})
                                           + (if emptied.Some? then {emptied.value} else {}))
  {
  }

  // The path whose being taken makes the directive collide; a move onto itself has none.
  function Landing(paths: Paths, d: Directive): Option<string> {
    match d
    case CopyIn(_, target, _) => Some(target)
    case Modify(_, _) => None
    case Move(path, _, _) => if Written(paths, d) == Some(path) then None else Written(paths, d)
    case _ => Written(paths, d)
  }

  predicate Forced(d: Directive, envelope: bool) {
    envelope || (!d.Modify? && !d.Delete? && d.force == Some(true))
  }

  // A directive is refused exactly when its source is missing, or it lands on a taken path by no
  // force of its own or the batch's; a missing source comes first.
  lemma RefusedMeans(paths: Paths, files: Files, d: Directive, envelope: bool)
    ensures var missing := !d.Create? && !d.CopyIn? && !d.Delete? && PrimaryPath(d) !in files;
            var taken := Landing(paths, d).Some? && Landing(paths, d).value in files && !Forced(d, envelope);
            && (Apply(paths, files, d, envelope) == Refused(NotFound) <==> missing)
            && (Apply(paths, files, d, envelope) == Refused(Collision) <==> !missing && taken)
            && (Apply(paths, files, d, envelope).Done? <==> !missing && !taken)
  {
  }

  // ---------------------------------------------------------------- staging

  datatype Staging = Staging(seed: Files, tree: Files, deleted: set<string>)

  // What reads see.
  function View(s: Staging): Files {
    (s.seed - s.deleted) + s.tree
  }

  ghost predicate Disjoint(s: Staging) {
    s.tree.Keys !! s.deleted
  }

  // What commit makes of the committed files.
  function Promoted(s: Staging, committed: Files): Files {
    (committed + s.tree) - s.deleted
  }

  // What a commit makes of the disk: the staged writes land, the deletions are carried out.
  function Landed(s: Staging, disk: Files): Files {
    (disk + s.tree) - s.deleted
  }

  predicate Touched(s: Staging, p: string) {
    p in s.tree || p in s.deleted
  }

  // A commit lands exactly what reads saw if and only if the disk still agrees with the seed
  // wherever the staging leaves it alone: no earlier write and no earlier deletion stands there.
  lemma CommitLandsTheView(s: Staging, disk: Files)
    requires Disjoint(s)
    ensures Landed(s, disk) == View(s) <==> forall p: string :: !Touched(s, p) ==> Agree(disk, s.seed, p)
  {
    var landed, view := Landed(s, disk), View(s);
    assert forall p: string :: Touched(s, p) ==> Agree(landed, view, p);
    assert forall p: string :: !Touched(s, p) ==> (Agree(landed, view, p) <==> Agree(disk, s.seed, p));
    if forall p: string :: !Touched(s, p) ==> Agree(disk, s.seed, p) {
      forall p: string ensures p in landed.Keys <==> p in view.Keys { assert Agree(landed, view, p); }
      assert landed.Keys == view.Keys;
      forall p | p in landed ensures landed[p] == view[p] { assert Agree(landed, view, p); }
    }
    if landed == view {
      forall p: string | !Touched(s, p) ensures Agree(disk, s.seed, p) { assert Agree(landed, view, p); }
    }
  }

  // At the first commit the disk is the seed.
  lemma FirstCommitLandsTheView(s: Staging)
    requires Disjoint(s)
    ensures Landed(s, s.seed) == View(s)
  {
    CommitLandsTheView(s, s.seed);
  }

  // A later commit can miss it: once "a" has been deleted, reads see the seed's "a" again.
  lemma LaterCommitMissesTheView(paths: Paths)
    ensures var seed := map["a" := "text"];
            var first := Staging(seed, map[], {"a"});
            var second := Staging(seed, map[], {});
            && ApplyAll(paths, View(second), [Delete("a")], false) == Outcome(View(first), None, 1)
            && Landed(first, seed) == View(first) == map[]
            && View(second) == seed && Landed(second, Landed(first, seed)) == map[]
  {
    var seed := map["a" := "text"];
    var after: Files := seed - {"a"};
    assert ApplyAll(paths, after, [], false) == Outcome(after, None, 0);
    assert [Delete("a")][1..] == [];
  }

  // ---------------------------------------------------------------- the engine

  datatype Served = FromTree | FromDisk

  class ContractFake {
    const paths: Paths
    const seed: Files
    var tree: Files
    var deleted: set<string>
    var committed: Files
    var lastServed: Option<Served>
    ghost var disk: Files   // what the commits so far have left on disk

    constructor (paths: Paths, seed: Files)
      ensures this.paths == paths && this.seed == seed && Valid()
      ensures View(State()) == seed && committed == map[] && disk == seed
    {
      this.paths, this.seed := paths, seed;
      tree, deleted, committed, lastServed := map[], {}, map[], None;
      disk := seed;
    }

    function State(): Staging
      reads this
    {
      Staging(seed, tree, deleted)
    }

    // The committed files are the standing writes; whatever else is on disk is the seed's.
    ghost predicate Valid()
      reads this
    {
      && Disjoint(State())
      && (forall p :: p in committed ==> p in disk && disk[p] == committed[p])
      && (forall p :: p in disk && p !in committed ==> p in seed && seed[p] == disk[p])
    }

    method Exists(p: string) returns (found: bool)
      requires Valid()
      ensures found <==> p in View(State())
    {
      if p in deleted { return false; }
      return p in tree || p in seed;
    }

    method GetContent(p: string) returns (content: string)
      requires Valid() && p in View(State())
      ensures content == View(State())[p]
    {
      if p in tree { return tree[p]; }
      return seed[p];
    }

    method Stage(p: string, content: string)
      requires Valid()
      modifies this`tree, this`deleted
      ensures Valid() && View(State()) == old(View(State()))[p := content]
    {
      deleted := deleted - {p};
      tree := tree[p := content];
    }

    method Unstage(p: string)
      requires Valid()
      modifies this`tree, this`deleted
      ensures Valid() && View(State()) == old(View(State())) - {p}
    {
      tree := tree - {p};
      deleted := deleted + {p};
    }

    // Keeps a directive from landing on a taken path without force.
    method Collides(target: string, envelope: bool, force: Option<bool>) returns (collides: bool)
      requires Valid()
      ensures collides <==> target in View(State()) && !Effective(envelope, force)
    {
      var exists_ := Exists(target);
      return exists_ && !Effective(envelope, force);
    }

    // Removes the source, then writes the destination; a move onto itself ends where it began.
    method Relocate(source: string, target: string)
      requires Valid() && source in View(State())
      modifies this`tree, this`deleted
      ensures Valid()
      ensures View(State()) == (old(View(State())) - {source})[target := old(View(State())[source])]
    {
      var content := GetContent(source);
      Unstage(source);
      Stage(target, content);
    }

    method ApplyDirective(d: Directive, envelope: bool, index: nat) returns (refused: Option<Rejection>)
      requires Valid()
      modifies this`tree, this`deleted
      ensures Valid()
      ensures match Apply(paths, old(View(State())), d, envelope)
              case Done(files) => refused == None && View(State()) == files
              case Refused(code) =>
                refused == Some(Rejection(code, Some(index), index)) && tree == old(tree) && deleted == old(deleted)
    {
      match d
      case Create(path, template, _, force) =>
        var collides := Collides(path, envelope, force);
        if collides { return Some(Rejection(Collision, Some(index), index)); }
        Stage(path, template);
        return None;
      case Modify(path, content) =>
        var found := Exists(path);
        if !found { return Some(Rejection(NotFound, Some(index), index)); }
        Stage(path, content);
        return None;
      case Delete(path) =>
        Unstage(path);
        return None;
      case Rename(path, newName, force) =>
        var found := Exists(path);
        if !found { return Some(Rejection(NotFound, Some(index), index)); }
        var target := RenameTarget(paths, path, newName);
        var collides := Collides(target, envelope, force);
        if collides { return Some(Rejection(Collision, Some(index), index)); }
        Relocate(path, target);
        return None;
      case Copy(from, target, force) =>
        var found := Exists(from);
        if !found { return Some(Rejection(NotFound, Some(index), index)); }
        var collides := Collides(target, envelope, force);
        if collides { return Some(Rejection(Collision, Some(index), index)); }
        var content := GetContent(from);
        Stage(target, content);
        return None;
      case CopyIn(_, target, force) =>
        var collides := Collides(target, envelope, force);
        if collides { return Some(Rejection(Collision, Some(index), index)); }
        return None;
      case Move(path, toDir, force) =>
        var found := Exists(path);
        if !found { return Some(Rejection(NotFound, Some(index), index)); }
        var target := MoveTarget(paths, path, toDir);
        if target != path {
          var collides := Collides(target, envelope, force);
          if collides { return Some(Rejection(Collision, Some(index), index)); }
        }
        Relocate(path, target);
        return None;
    }

    // What the gates in front of the apply loop say.
    static function Gate(batch: Batch): Option<Rejection> {
      if batch.encoding.Throws? then Some(Rejection(Unrepresentable, None, 0))
      else if ExceedsBatchCap(batch.encoding.size + EnvelopeAllowance()) then Some(Rejection(Cap, None, 0))
      else if !batch.encoding.faithful then Some(Rejection(Unrepresentable, None, 0))
      else None
    }

    method Emit(batch: Batch) returns (refused: Option<Rejection>)
      requires Valid()
      modifies this`tree, this`deleted
      ensures Valid()
      ensures Gate(batch).Some? ==> refused == Gate(batch) && tree == old(tree) && deleted == old(deleted)
      ensures Gate(batch).None? ==>
                var o := ApplyAll(paths, old(View(State())), batch.instructions, batch.force);
                && View(State()) == o.files
                && refused == if o.refused.None? then None
                              else Some(Rejection(o.refused.value, Some(o.applied), o.applied))
    {
      var gate := Gate(batch);
      if gate.Some? { return gate; }
      ghost var start := View(State());
      var instructions := batch.instructions;
      for index := 0 to |instructions|
        invariant Valid()
        invariant Resumes(ApplyAll(paths, start, instructions, batch.force),
                          ApplyAll(paths, View(State()), instructions[index..], batch.force), index)
      {
        assert instructions[index..][0] == instructions[index]
               && instructions[index..][1..] == instructions[index + 1..];
        refused := ApplyDirective(instructions[index], batch.force, index);
        if refused.Some? { return; }
      }
      assert instructions[|instructions|..] == [];
      return None;
    }

    // Promotes everything staged, and clears the staging.
    method Commit()
      requires Valid()
      modifies this`tree, this`deleted, this`committed, this`disk
      ensures Valid() && committed == Promoted(old(State()), old(committed)) && disk == Landed(old(State()), old(disk))
      ensures View(State()) == seed && tree == map[] && deleted == {}
    {
      disk := (disk + tree) - deleted;
      committed := (committed + tree) - deleted;
      tree, deleted := map[], {};
    }

    method Discard()
      requires Valid()
      modifies this`tree, this`deleted
      ensures Valid() && View(State()) == seed
    {
      tree, deleted := map[], {};
    }

    method Read(path: string) returns (content: Option<string>)
      requires Valid()
      modifies this`lastServed
      ensures content == if path in View(State()) then Some(View(State())[path]) else None
      ensures lastServed == if path !in View(State()) then old(lastServed)
                            else Some(if path in tree then FromTree else FromDisk)
    {
      if path in deleted { return None; }
      if path in tree {
        lastServed := Some(FromTree);
        return Some(tree[path]);
      }
      if path in seed {
        lastServed := Some(FromDisk);
        return Some(seed[path]);
      }
      return None;
    }
  }

  // The rest of the batch, started from here, comes to the whole batch's outcome.
  ghost predicate Resumes(whole: Outcome, rest: Outcome, done: nat) {
    whole.files == rest.files && whole.refused == rest.refused && whole.applied == rest.applied + done
  }

  // A refused batch reaches the author as the offending call: its verb, its source path, and how
  // many directives landed before it.
  lemma RefusalIsAttributed(paths: Paths, files: Files, instructions: seq<Directive>, envelope: bool)
    requires ApplyAll(paths, files, instructions, envelope).refused.Some?
    ensures var o := ApplyAll(paths, files, instructions, envelope);
            var rejection := Rejection(o.refused.value, Some(o.applied), o.applied);
            var seen := ToAuthoringError(Raised(rejection), instructions);
            && o.applied < |instructions|
            && InContract(rejection)
            && seen.verb == Some(VerbFor(instructions[o.applied]))
            && seen.path == Some(PrimaryPath(instructions[o.applied]))
            && seen.appliedCount == o.applied
            && seen.reason == (if o.refused.value.NotFound? then PathNotFound else PathCollision)
  {
    RefusalLeavesThePrefix(paths, files, instructions, envelope);
    var o := ApplyAll(paths, files, instructions, envelope);
    RefusalMeans(paths, o.files, instructions[o.applied], envelope);
  }
}

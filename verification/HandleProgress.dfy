// No run gets stuck: until its verdict some turn is always possible, and without further steps
// from the author only so many turns are left, whatever fails and in whatever order they come.
module HandleProgress {
  import opened Prelude
  import opened HandleMachine
  import opened HandleInvariant
  import opened HandleDrain
  import opened HandleProofs
  import opened HandleFailures

  // ---------------------------------------------------------------- whoever waits is queued

  ghost predicate Queued<A, E>(s: State<A, E>, owner: Option<nat>) {
    exists i :: 0 <= i < |s.queue| && OwnerOf(s.queue[i]) == owner
  }

  ghost predicate WaitsFor<A, E>(s: State<A, E>, h: nat) {
    h < |s.handles| &&
    var x := s.handles[h];
    && x.drainTo <= |x.chain|
    && (x.phase.AwaitEmit? || x.phase.AwaitRead? ==> Queued(s, Some(h)))
  }

  ghost predicate Waits<A, E>(s: State<A, E>) {
    && (forall h: nat :: h < |s.handles| ==> WaitsFor(s, h))
    && (s.stage.Flushing? || s.stage.Committing? ==> Queued(s, None))
  }

  lemma QueuedGrows<A, E>(s: State<A, E>, s': State<A, E>, r: Request, owner: Option<nat>)
    requires s'.queue == s.queue + [r] && (Queued(s, owner) || OwnerOf(r) == owner)
    ensures Queued(s', owner)
  {
    if Queued(s, owner) {
      var i :| 0 <= i < |s.queue| && OwnerOf(s.queue[i]) == owner;
      assert s'.queue[i] == s.queue[i];
    } else {
      assert s'.queue[|s.queue|] == r;
    }
  }

  lemma QueuedBehindHead<A, E>(s: State<A, E>, s': State<A, E>, owner: Option<nat>)
    requires s.queue != [] && s.queue[1..] <= s'.queue && Queued(s, owner) && OwnerOf(s.queue[0]) != owner
    ensures Queued(s', owner)
  {
    var i :| 0 <= i < |s.queue| && OwnerOf(s.queue[i]) == owner;
    assert s'.queue[i - 1] == s.queue[1..][i - 1] == s.queue[i];
  }

  // A turn that leaves the queue alone and makes no handle await anything.
  lemma WaitsSame<A, E>(s: State<A, E>, s': State<A, E>)
    requires Waits(s) && s'.queue == s.queue && |s'.handles| == |s.handles|
    requires forall h :: 0 <= h < |s.handles| ==> StillWaits(s.handles[h], s'.handles[h])
    requires s'.stage.Flushing? || s'.stage.Committing? ==> s'.stage == s.stage
    ensures Waits(s')
  {
    forall h: nat | h < |s.handles| ensures WaitsFor(s', h) {
      assert WaitsFor(s, h) && StillWaits(s.handles[h], s'.handles[h]);
      if Queued(s, Some(h)) {
        var i :| 0 <= i < |s.queue| && OwnerOf(s.queue[i]) == Some(h);
        assert OwnerOf(s'.queue[i]) == Some(h);
      }
    }
    if Queued(s, None) {
      var i :| 0 <= i < |s.queue| && OwnerOf(s.queue[i]) == None;
      assert OwnerOf(s'.queue[i]) == None;
    }
  }

  ghost predicate StillWaits<A, E>(x: Handle<A, E>, x': Handle<A, E>) {
    && (x.drainTo <= |x.chain| ==> x'.drainTo <= |x'.chain|)
    && (x'.phase.AwaitEmit? || x'.phase.AwaitRead? ==> x'.phase == x.phase)
  }

  // Handle `h` puts a request into the queue and awaits it.
  lemma WaitsEnqueued<A, E>(s: State<A, E>, s': State<A, E>, h: nat, r: Request)
    requires Waits(s) && h < |s.handles| && s'.queue == s.queue + [r] && OwnerOf(r) == Some(h)
    requires |s'.handles| == |s.handles| && s'.stage == s.stage && s'.handles[h].drainTo <= |s'.handles[h].chain|
    requires forall g :: 0 <= g < |s.handles| && g != h ==> s'.handles[g] == s.handles[g]
    ensures Waits(s')
  {
    forall g: nat | g < |s.handles| ensures WaitsFor(s', g) {
      assert WaitsFor(s, g);
      if g == h || Queued(s, Some(g)) { QueuedGrows(s, s', r, Some(g)); }
    }
    if Queued(s, None) { QueuedGrows(s, s', r, None); }
  }

  lemma LandWaits<A, E>(d: Dialect<A, E>, s: State<A, E>, a: Action<E>)
    requires DrainInv(s) && Waits(s) && Enabled(s, a) && (a.Land? || a.LandFails?)
    ensures Waits(Apply(d, s, a))
  {
    var s' := Apply(d, s, a);
    HeadFits(s);
    LandShape(d, s, a);
    forall g: nat | g < |s.handles| ensures WaitsFor(s', g) {
      assert WaitsFor(s, g);
      if OwnerOf(s.queue[0]) != Some(g) && Queued(s, Some(g)) { QueuedBehindHead(s, s', Some(g)); }
    }
    if Queued(s, None) && OwnerOf(s.queue[0]).Some? { QueuedBehindHead(s, s', None); }
    if s'.stage.Committing? && OwnerOf(s.queue[0]).None? {
      assert OwnerOf(s'.queue[|s.queue| - 1]) == None;
    }
  }

  // What landing or refusing the head of the queue does to queue, stage and handles.
  lemma LandShape<A, E>(d: Dialect<A, E>, s: State<A, E>, a: Action<E>)
    requires DrainInv(s) && Enabled(s, a) && (a.Land? || a.LandFails?)
    ensures var s', owner := Apply(d, s, a), OwnerOf(s.queue[0]);
            && |s'.handles| == |s.handles| && s.queue[1..] <= s'.queue
            && (forall g :: 0 <= g < |s.handles| && owner != Some(g) ==> s'.handles[g] == s.handles[g])
            && (owner.Some? ==>
                  && owner.value < |s.handles| && s'.stage == s.stage
                  && s'.handles[owner.value].drainTo == s.handles[owner.value].drainTo
                  && s'.handles[owner.value].chain == s.handles[owner.value].chain
                  && !s'.handles[owner.value].phase.AwaitEmit? && !s'.handles[owner.value].phase.AwaitRead?)
            && (owner.None? && s'.stage.Committing? ==>
                  |s'.queue| == |s.queue| && s'.queue[|s.queue| - 1] == CommitRequest)
            && (owner.None? ==> !s'.stage.Flushing?)
  {
    HeadFits(s);
  }

  lemma KeepsWaits<A, E>(d: Dialect<A, E>, s: State<A, E>, a: Action<E>)
    requires DrainInv(s) && Waits(s) && Enabled(s, a)
    ensures Waits(Apply(d, s, a))
  {
    match a {
      case Begin(h) => BeginWaits(d, s, h);
      case IssueRead(h) =>
        assert WaitsFor(s, h);
        WaitsEnqueued(s, Apply(d, s, a), h, ReadRequest(h));
      case Land => LandWaits(d, s, a);
      case LandFails(_, _) => LandWaits(d, s, a);
      case DrainDone => DrainDoneWaits(s);
      case Finish(h) =>
        if CurrentStep(s, h).Op? { WaitsSame(s, ApplyGate(d, s, h)); } else { WaitsSame(s, ApplyQueryEnd(d, s, h)); }
      case _ => RestWaits(d, s, a);
    }
  }

  lemma BeginWaits<A, E>(d: Dialect<A, E>, s: State<A, E>, h: nat)
    requires Waits(s) && Enabled(s, Begin(h))
    ensures Waits(ApplyBegin(d, s, h))
  {
    var s' := ApplyBegin(d, s, h);
    assert WaitsFor(s, h);
    if s'.queue == s.queue { WaitsSame(s, s'); } else { WaitsEnqueued(s, s', h, EmitRequest(s.pending, ByHandle(h))); }
  }

  lemma DrainDoneWaits<A, E>(s: State<A, E>)
    requires Waits(s) && Enabled(s, DrainDone)
    ensures Waits(ApplyDrainDone(s))
  {
    var s' := ApplyDrainDone(s);
    if DrainError(s, s.draining).Some? {
      WaitsSame(s, s');
    } else {
      var r := s'.queue[|s.queue|];
      forall g: nat | g < |s.handles| ensures WaitsFor(s', g) {
        assert WaitsFor(s, g);
        if Queued(s, Some(g)) { QueuedGrows(s, s', r, Some(g)); }
      }
      QueuedGrows(s, s', r, None);
    }
  }

  lemma RestWaits<A, E>(d: Dialect<A, E>, s: State<A, E>, a: Action<E>)
    requires Waits(s) && Enabled(s, a)
    requires a.Chain? || a.Edit? || a.Throw? || a.Serialize? || a.Settle? || a.SettleFails?
             || a.Return? || a.AuthorThrow?
    ensures Waits(Apply(d, s, a))
  {
    WaitsSame(s, Apply(d, s, a));
  }

  lemma {:induction false} RunKeepsWaits<A, E>(d: Dialect<A, E>, files: seq<Option<string>>, actions: seq<Action<E>>)
    requires IsRun(d, Init(files), actions)
    ensures Waits(Exec(d, Init(files), actions))
    decreases |actions|
  {
    if actions != [] {
      var front := actions[..|actions| - 1];
      RunKeepsWaits(d, files, front);
      RunKeepsDrain(d, files, front);
      KeepsWaits(d, Exec(d, Init(files), front), actions[|actions| - 1]);
    }
  }

  // ---------------------------------------------------------------- some turn is possible

  // A turn of the handles, the engine or the run boundary, and no failure.
  predicate Ordinary<E>(a: Action<E>) {
    !a.Chain? && !a.Throw? && !a.AuthorThrow? && !a.LandFails? && !a.SettleFails?
  }

  // Until its verdict every run can take another turn that is not the author's.
  lemma NoRunIsStuck<A, E>(d: Dialect<A, E>, files: seq<Option<string>>, actions: seq<Action<E>>) returns (a: Action<E>)
    requires IsRun(d, Init(files), actions) && !Over(Exec(d, Init(files), actions).stage)
    ensures Enabled(Exec(d, Init(files), actions), a) && Ordinary(a)
  {
    var s := Exec(d, Init(files), actions);
    RunKeepsBase(d, files, actions);
    RunKeepsWaits(d, files, actions);
    if s.queue != [] {
      HeadFits(s);
      a := if s.onWire then Land else Serialize;
    } else if s.stage.Authoring? {
      a := Return;
    } else {
      assert !Queued(s, None);
      if Drained(s) {
        a := DrainDone;
      } else {
        var h :| h in s.draining && h < |s.handles| && !TailRejected(s.handles[h])
                 && s.handles[h].settlement.NotSettled?;
        a := NextOf(s, h);
      }
    }
  }

  // A handle the drain waits for, with nothing in the queue.
  lemma NextOf<A, E>(s: State<A, E>, h: nat) returns (a: Action<E>)
    requires Structure(s) && Waits(s) && s.stage.Draining? && s.queue == [] && h in s.draining && h < |s.handles|
    requires !TailRejected(s.handles[h]) && s.handles[h].settlement.NotSettled?
    ensures Enabled(s, a) && Ordinary(a)
  {
    var x := s.handles[h];
    assert HandleOk(s, h) && WaitsFor(s, h);
    if x.drainTo <= x.pc {
      a := Settle(h);
    } else if x.phase.Idle? {
      a := Begin(h);
    } else if x.phase.FlushDone? {
      a := IssueRead(h);
    } else {
      assert x.phase.Working?;
      a := if x.phase.k < |x.chain[x.pc].edits| then Edit(h) else Finish(h);
    }
  }

  // ---------------------------------------------------------------- and only so many are left

  function EditsIn<E>(step: Step<E>): nat {
    if step.Read? then 0 else |step.edits|
  }

  function Ahead<E>(steps: seq<Step<E>>): nat {
    if steps == [] then 0 else EditsIn(steps[0]) + 6 + Ahead(steps[1..])
  }

  function Left(edits: nat, phase: Phase): nat {
    match phase
    case Idle => edits + 6
    case AwaitEmit => edits + 5
    case FlushDone => edits + 4
    case AwaitRead => edits + 3
    case Working(k, _) => if k <= edits then edits - k + 2 else 2
  }

  // What is left of a handle's steps; a rejected one is done.
  function Work<A, E>(x: Handle<A, E>): nat {
    if x.rejected.Some? || x.pc >= |x.chain| then 0
    else Left(EditsIn(x.chain[x.pc]), x.phase) + Ahead(x.chain[x.pc + 1..])
  }

  function HandleWeight<A, E>(x: Handle<A, E>): nat {
    3 * Work(x) + if x.settlement.NotSettled? then 1 else 0
  }

  function HandlesWeight<A, E>(handles: seq<Handle<A, E>>): nat {
    if handles == [] then 0 else HandleWeight(handles[0]) + HandlesWeight(handles[1..])
  }

  function StageWeight(stage: Stage): nat {
    match stage
    case Authoring => 12
    case Draining => 9
    case Flushing => 6
    case Committing => 3
    case _ => 0
  }

  function QueueWeight<A, E>(s: State<A, E>): nat {
    if s.onWire && s.queue != [] then 2 * |s.queue| - 1 else 2 * |s.queue|
  }

  // A bound on the turns still to come.
  function TurnsLeft<A, E>(s: State<A, E>): nat {
    HandlesWeight(s.handles) + QueueWeight(s) + StageWeight(s.stage)
  }

  lemma {:induction false} WeightOfOne<A, E>(handles: seq<Handle<A, E>>, h: nat, x: Handle<A, E>)
    requires h < |handles|
    ensures HandlesWeight(handles[h := x]) + HandleWeight(handles[h]) == HandlesWeight(handles) + HandleWeight(x)
  {
    if h == 0 {
      assert handles[h := x][1..] == handles[1..];
    } else {
      assert handles[h := x][1..] == handles[1..][h - 1 := x];
      WeightOfOne(handles[1..], h - 1, x);
    }
  }

  lemma {:induction false} SameWeight<A, E>(a: seq<Handle<A, E>>, b: seq<Handle<A, E>>)
    requires |a| == |b| && forall h :: 0 <= h < |a| ==> b[h].(drainTo := 0) == a[h].(drainTo := 0)
    ensures HandlesWeight(b) == HandlesWeight(a)
  {
    if a != [] {
      assert b[0].(drainTo := 0) == a[0].(drainTo := 0);
      assert Work(b[0]) == Work(b[0].(drainTo := 0)) == Work(a[0].(drainTo := 0)) == Work(a[0]);
      forall h | 0 <= h < |a[1..]| ensures b[1..][h].(drainTo := 0) == a[1..][h].(drainTo := 0) {
        assert b[h + 1].(drainTo := 0) == a[h + 1].(drainTo := 0);
      }
      SameWeight(a[1..], b[1..]);
    }
  }

  lemma NextStepLeft<A, E>(x: Handle<A, E>)
    requires x.rejected.None? && x.pc < |x.chain|
    ensures Work(x.(pc := x.pc + 1, phase := Idle)) == Ahead(x.chain[x.pc + 1..])
    ensures Work(x) == Left(EditsIn(x.chain[x.pc]), x.phase) + Ahead(x.chain[x.pc + 1..])
  {
    if x.pc + 1 < |x.chain| { assert x.chain[x.pc + 1..][1..] == x.chain[x.pc + 2..]; }
  }

  // One handle comes nearer to its end, at the price of at most one request.
  lemma OneHandleCosts<A, E>(s: State<A, E>, s': State<A, E>, h: nat)
    requires h < |s.handles| && |s'.handles| == |s.handles| && s'.handles == s.handles[h := s'.handles[h]]
    requires HandleWeight(s'.handles[h]) + 3 <= HandleWeight(s.handles[h])
    requires QueueWeight(s') <= QueueWeight(s) + 2 && StageWeight(s'.stage) <= StageWeight(s.stage)
    ensures TurnsLeft(s') < TurnsLeft(s)
  {
    WeightOfOne(s.handles, h, s'.handles[h]);
  }

  // The same handle further on in its step, or rejected.
  lemma Nearer<A, E>(x: Handle<A, E>, x': Handle<A, E>)
    requires x.rejected.None? && x.pc < |x.chain| && x'.settlement == x.settlement && x'.chain == x.chain
    requires || x'.rejected.Some?
             || (x'.pc == x.pc && Left(EditsIn(x.chain[x.pc]), x'.phase) < Left(EditsIn(x.chain[x.pc]), x.phase))
             || (x'.pc == x.pc + 1 && x'.phase.Idle?)
    ensures HandleWeight(x') + 3 <= HandleWeight(x)
  {
    NextStepLeft(x);
    if x'.rejected.None? && x'.pc == x.pc + 1 { assert Work(x') == Work(x.(pc := x.pc + 1, phase := Idle)); }
  }

  lemma StepCosts<A, E>(d: Dialect<A, E>, s: State<A, E>, a: Action<E>)
    requires Enabled(s, a) && (a.Begin? || a.IssueRead? || a.Edit? || a.Throw? || a.Finish?)
    ensures TurnsLeft(Apply(d, s, a)) < TurnsLeft(s)
  {
    var s', h := Apply(d, s, a), a.h;
    if a.Finish? { FinishMoves(d, s, h); } else { StepMoves(d, s, a); }
    Nearer(s.handles[h], s'.handles[h]);
    OneHandleCosts(s, s', h);
  }

  lemma StepMoves<A, E>(d: Dialect<A, E>, s: State<A, E>, a: Action<E>)
    requires Enabled(s, a) && (a.Begin? || a.IssueRead? || a.Edit? || a.Throw?)
    ensures var s', x, x' := Apply(d, s, a), s.handles[a.h], Apply(d, s, a).handles[a.h];
            && |s'.handles| == |s.handles| && s'.handles == s.handles[a.h := x'] && s'.stage == s.stage
            && QueueWeight(s') <= QueueWeight(s) + 2
            && x'.settlement == x.settlement && x'.chain == x.chain
            && (x'.rejected.Some? || (x'.pc == x.pc
                && Left(EditsIn(x.chain[x.pc]), x'.phase) < Left(EditsIn(x.chain[x.pc]), x.phase)))
  {
  }

  lemma FinishMoves<A, E>(d: Dialect<A, E>, s: State<A, E>, h: nat)
    requires Enabled(s, Finish(h))
    ensures var s', x, x' := Apply(d, s, Finish(h)), s.handles[h], Apply(d, s, Finish(h)).handles[h];
            && |s'.handles| == |s.handles| && s'.handles == s.handles[h := x'] && s'.stage == s.stage
            && s'.queue == s.queue && s'.onWire == s.onWire
            && x'.settlement == x.settlement && x'.chain == x.chain
            && (x'.rejected.Some? || (x'.pc == x.pc + 1 && x'.phase.Idle?))
  {
  }

  lemma LandCosts<A, E>(d: Dialect<A, E>, s: State<A, E>, a: Action<E>)
    requires DrainInv(s) && Enabled(s, a) && (a.Land? || a.LandFails?)
    ensures TurnsLeft(Apply(d, s, a)) < TurnsLeft(s)
  {
    HeadFits(s);
    var s' := Apply(d, s, a);
    if OwnerOf(s.queue[0]).Some? {
      var h := OwnerOf(s.queue[0]).value;
      LandMoves(d, s, a, h);
      Nearer(s.handles[h], s'.handles[h]);
      OneHandleCosts(s, s', h);
    }
  }

  lemma LandMoves<A, E>(d: Dialect<A, E>, s: State<A, E>, a: Action<E>, h: nat)
    requires DrainInv(s) && Enabled(s, a) && (a.Land? || a.LandFails?) && OwnerOf(s.queue[0]) == Some(h)
    ensures h < |s.handles| && Runnable(s, h)
    ensures var s', x, x' := Apply(d, s, a), s.handles[h], Apply(d, s, a).handles[h];
            && |s'.handles| == |s.handles| && s'.handles == s.handles[h := x'] && s'.stage == s.stage
            && QueueWeight(s') <= QueueWeight(s)
            && x'.settlement == x.settlement && x'.chain == x.chain
            && (x'.rejected.Some? || (x'.pc == x.pc + 1 && x'.phase.Idle?) || (x'.pc == x.pc
                && Left(EditsIn(x.chain[x.pc]), x'.phase) < Left(EditsIn(x.chain[x.pc]), x.phase)))
  {
    HeadFits(s);
  }

  lemma SettleCosts<A, E>(d: Dialect<A, E>, s: State<A, E>, a: Action<E>)
    requires Enabled(s, a) && (a.Settle? || a.SettleFails?)
    ensures TurnsLeft(Apply(d, s, a)) < TurnsLeft(s)
  {
    var s', x := Apply(d, s, a), s.handles[a.h];
    assert s'.handles == s.handles[a.h := x.(settlement := s'.handles[a.h].settlement)];
    WeightOfOne(s.handles, a.h, s'.handles[a.h]);
  }

  lemma StageCosts<A, E>(d: Dialect<A, E>, s: State<A, E>, a: Action<E>)
    requires Enabled(s, a) && (a.Serialize? || a.Return? || a.AuthorThrow? || a.DrainDone?)
    ensures TurnsLeft(Apply(d, s, a)) < TurnsLeft(s)
  {
    SameWeight(s.handles, Apply(d, s, a).handles);
  }

  // In every run, every turn but a further step of the author's uses up one of the turns left.
  lemma TurnCosts<A, E>(d: Dialect<A, E>, files: seq<Option<string>>, actions: seq<Action<E>>, a: Action<E>)
    requires IsRun(d, Init(files), actions) && Enabled(Exec(d, Init(files), actions), a) && !a.Chain?
    ensures var s := Exec(d, Init(files), actions);
            TurnsLeft(Apply(d, s, a)) < TurnsLeft(s)
  {
    var s := Exec(d, Init(files), actions);
    RunKeepsDrain(d, files, actions);
    match a {
      case Land => LandCosts(d, s, a);
      case LandFails(_, _) => LandCosts(d, s, a);
      case Settle(_) => SettleCosts(d, s, a);
      case SettleFails(_, _) => SettleCosts(d, s, a);
      case Serialize => StageCosts(d, s, a);
      case Return => StageCosts(d, s, a);
      case AuthorThrow(_) => StageCosts(d, s, a);
      case DrainDone => StageCosts(d, s, a);
      case _ => StepCosts(d, s, a);
    }
  }

  // From any point of any run: without further steps from the author no more than so many turns
  // follow, in whatever order and whatever fails.
  lemma {:induction false} RunsAreBounded<A, E>(
      d: Dialect<A, E>, files: seq<Option<string>>, front: seq<Action<E>>, back: seq<Action<E>>)
    requires IsRun(d, Init(files), front) && IsRun(d, Init(files), front + back)
    requires forall i :: 0 <= i < |back| ==> !back[i].Chain?
    ensures TurnsLeft(Exec(d, Init(files), front + back)) + |back| <= TurnsLeft(Exec(d, Init(files), front))
    decreases |back|
  {
    if back == [] {
      assert front + back == front;
    } else {
      Unroll(d, Init(files), front, back);
      RunsAreBounded(d, files, front, back[..|back| - 1]);
      TurnCosts(d, files, front + back[..|back| - 1], back[|back| - 1]);
    }
  }

  ghost predicate Ends<A, E>(d: Dialect<A, E>, files: seq<Option<string>>, actions: seq<Action<E>>) {
    IsRun(d, Init(files), actions) && Over(Exec(d, Init(files), actions).stage)
  }

  ghost predicate AllOrdinary<E>(actions: seq<Action<E>>) {
    forall i :: 0 <= i < |actions| ==> Ordinary(actions[i])
  }

  // Every run can be brought to a verdict from wherever it is, by turns none of which is the
  // author's or a failure.
  lemma {:induction false} EveryRunCanEnd<A, E>(d: Dialect<A, E>, files: seq<Option<string>>, front: seq<Action<E>>)
    returns (back: seq<Action<E>>)
    requires IsRun(d, Init(files), front)
    ensures Ends(d, files, front + back) && AllOrdinary(back)
    decreases TurnsLeft(Exec(d, Init(files), front))
  {
    if Over(Exec(d, Init(files), front).stage) {
      back := [];
      assert front + back == front;
    } else {
      var a := OneMoreTurn(d, files, front);
      back := EveryRunCanEnd(d, files, front + [a]);
      back := Prepended(d, files, front, a, back);
    }
  }

  lemma Prepended<A, E>(
      d: Dialect<A, E>, files: seq<Option<string>>, front: seq<Action<E>>, a: Action<E>, back: seq<Action<E>>)
    returns (all: seq<Action<E>>)
    requires Ends(d, files, front + [a] + back) && Ordinary(a) && AllOrdinary(back)
    ensures Ends(d, files, front + all) && AllOrdinary(all)
  {
    all := [a] + back;
    assert front + all == front + [a] + back;
  }

  lemma OneMoreTurn<A, E>(d: Dialect<A, E>, files: seq<Option<string>>, front: seq<Action<E>>) returns (a: Action<E>)
    requires IsRun(d, Init(files), front) && !Over(Exec(d, Init(files), front).stage)
    ensures Ordinary(a) && IsRun(d, Init(files), front + [a])
    ensures TurnsLeft(Exec(d, Init(files), front + [a])) < TurnsLeft(Exec(d, Init(files), front))
  {
    a := NoRunIsStuck(d, files, front);
    TurnCosts(d, files, front, a);
    assert (front + [a])[..|front|] == front;
  }
}

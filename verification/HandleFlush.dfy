// Past the drain a finished handle's directives are all ahead of the commit: over every run in
// which nothing is chained late on that handle, whatever is chained late on others.
module HandleFlush {
  import opened Prelude
  import opened HandleMachine
  import opened HandleInvariant
  import opened HandleDrain
  import opened HandleProofs

  // Behind the `i`th request there is no directive of handle `h`.
  ghost predicate NoneBehind<A, E>(s: State<A, E>, i: nat, h: nat) {
    i < |s.queue| && NoneOwned(s.dirs, QueueIds(s.queue[i + 1..]) + s.pending, h)
  }

  ghost predicate Emptied<A, E>(s: State<A, E>, h: nat) {
    && (forall i: nat :: i < |s.queue| && OwnerOf(s.queue[i]).None? ==> NoneBehind(s, i, h))
    && (PastDrain(s.stage) ==> NoneOwned(s.dirs, s.pending, h))
    && (s.stage.Committed? ==> NoneOwned(s.dirs, Outstanding(s), h))
  }

  // Memoizing getters and moving handles moves no directive.
  lemma EmptiedSame<A, E>(s: State<A, E>, s': State<A, E>, h: nat)
    requires Emptied(s, h) && s'.queue == s.queue && s'.pending == s.pending && s'.stage == s.stage
    requires |s'.dirs| == |s.dirs| && forall id :: 0 <= id < |s.dirs| ==> s'.dirs[id].owner == s.dirs[id].owner
    ensures Emptied(s', h)
  {
    forall i: nat | i < |s'.queue| && OwnerOf(s'.queue[i]).None? ensures NoneBehind(s', i, h) {
      assert NoneBehind(s, i, h);
    }
  }

  // A request joins the queue, taking its directives from the buffer.
  lemma EmptiedEnqueue<A, E>(s: State<A, E>, s': State<A, E>, r: Request, h: nat)
    requires Emptied(s, h) && s'.queue == s.queue + [r] && RequestIds(r) + s'.pending == s.pending
    requires s'.dirs == s.dirs && (s'.stage.Committed? ==> s.stage.Committed?)
    requires PastDrain(s'.stage) || OwnerOf(r).None? ==> PastDrain(s.stage) || s'.pending == []
    ensures Emptied(s', h)
  {
    QueueIdsAppend(s.queue, r);
    assert Outstanding(s') == Outstanding(s);
    assert forall id :: id in s'.pending ==> id in s.pending;
    forall i: nat | i < |s'.queue| && OwnerOf(s'.queue[i]).None? ensures NoneBehind(s', i, h) {
      if i < |s.queue| {
        assert NoneBehind(s, i, h);
        QueueIdsSuffix(s.queue, r, i + 1);
        assert QueueIds(s'.queue[i + 1..]) + s'.pending == QueueIds(s.queue[i + 1..]) + s.pending;
      } else {
        assert s'.queue[i + 1..] == [];
      }
    }
  }

  // The head of the queue is answered.
  lemma EmptiedDequeue<A, E>(s: State<A, E>, s': State<A, E>, h: nat)
    requires Emptied(s, h) && s.queue != [] && s'.queue == s.queue[1..]
    requires s'.pending == s.pending && s'.dirs == s.dirs
    requires PastDrain(s'.stage) ==> PastDrain(s.stage)
    requires s'.stage.Committed? ==> s.stage.Committed? || OwnerOf(s.queue[0]).None?
    ensures Emptied(s', h)
  {
    assert Outstanding(s) == RequestIds(s.queue[0]) + Outstanding(s');
    if OwnerOf(s.queue[0]).None? { assert NoneBehind(s, 0, h); }
    forall i: nat | i < |s'.queue| && OwnerOf(s'.queue[i]).None? ensures NoneBehind(s', i, h) {
      assert NoneBehind(s, i + 1, h) && s'.queue[i + 1..] == s.queue[i + 2..];
    }
  }

  // A directive is buffered: another handle's, or one of a handle the drain still waits for.
  lemma EmptiedGate<A, E>(d: Dialect<A, E>, s: State<A, E>, g: nat, h: nat)
    requires Base(s) && Marked(s, h) && Emptied(s, h) && Enabled(s, Finish(g)) && CurrentStep(s, g).Op?
    requires h < |s.handles|
    ensures Emptied(ApplyGate(d, s, g), h)
  {
    var s' := ApplyGate(d, s, g);
    assert DrainOk(s, h) && HandleOk(s, g);
    if s'.pending == s.pending {
      EmptiedSame(s, s', h);
    } else if g == h {
      NoRunRequest(s);
    } else {
      EmptiedRegister(s, s', g, h);
    }
  }

  lemma EmptiedRegister<A, E>(s: State<A, E>, s': State<A, E>, g: nat, h: nat)
    requires Shape(s) && Emptied(s, h) && g != h
    requires s'.queue == s.queue && s'.stage == s.stage && s'.pending == s.pending + [|s.dirs|]
    requires |s'.dirs| == |s.dirs| + 1 && s'.dirs[|s.dirs|].owner == g
    requires forall id :: 0 <= id < |s.dirs| ==> s'.dirs[id].owner == s.dirs[id].owner
    ensures Emptied(s', h)
  {
    assert Outstanding(s') == Outstanding(s) + [|s.dirs|];
    forall i: nat | i < |s'.queue| && OwnerOf(s'.queue[i]).None? ensures NoneBehind(s', i, h) {
      assert NoneBehind(s, i, h);
      assert QueueIds(s'.queue[i + 1..]) + s'.pending == QueueIds(s.queue[i + 1..]) + s.pending + [|s.dirs|];
    }
  }

  lemma EmptiedLand<A, E>(d: Dialect<A, E>, s: State<A, E>, h: nat)
    requires Base(s) && Emptied(s, h) && Enabled(s, Land)
    ensures Emptied(ApplyLand(d, s), h)
  {
    HeadFits(s);
    if s.queue[0].EmitRequest? && s.queue[0].waiter.ByRun? {
      var mid := Dequeue(s);
      EmptiedDequeue(s, mid, h);
      EmptiedEnqueue(mid, ApplyLand(d, s), CommitRequest, h);
    } else {
      EmptiedDequeue(s, ApplyLand(d, s), h);
    }
  }

  lemma EmptiedAuthor<A, E>(d: Dialect<A, E>, s: State<A, E>, a: Action<E>, h: nat)
    requires Base(s) && Enabled(s, a) && (a.Return? || a.AuthorThrow?)
    ensures Emptied(Apply(d, s, a), h)
  {
    NoRunRequest(s);
  }

  lemma EmptiedDrainDone<A, E>(d: Dialect<A, E>, s: State<A, E>, h: nat)
    requires Base(s) && Emptied(s, h) && Enabled(s, DrainDone)
    ensures Emptied(Apply(d, s, DrainDone), h)
  {
    var s' := ApplyDrainDone(s);
    if DrainError(s, s.draining).Some? {
      NoRunRequest(s);
    } else {
      EmptiedEnqueue(s, s', s'.queue[|s.queue|], h);
    }
  }

  lemma EmptiedBegin<A, E>(d: Dialect<A, E>, s: State<A, E>, g: nat, h: nat)
    requires Emptied(s, h) && Enabled(s, Begin(g))
    ensures Emptied(ApplyBegin(d, s, g), h)
  {
    var s' := ApplyBegin(d, s, g);
    if s'.queue == s.queue {
      EmptiedSame(s, s', h);
    } else {
      EmptiedEnqueue(s, s', EmitRequest(s.pending, ByHandle(g)), h);
    }
  }

  lemma EmptiedLandFails<A, E>(d: Dialect<A, E>, s: State<A, E>, reason: string, landed: nat, h: nat)
    requires Emptied(s, h) && Enabled(s, LandFails(reason, landed))
    ensures Emptied(ApplyLandFails(s, reason, landed), h)
  {
    EmptiedDequeue(s, ApplyLandFails(s, reason, landed), h);
  }

  // The turns that touch neither queue nor buffer nor stage.
  lemma EmptiedRest<A, E>(d: Dialect<A, E>, s: State<A, E>, a: Action<E>, h: nat)
    requires Emptied(s, h) && Enabled(s, a)
    requires a.Chain? || a.Edit? || a.Throw? || a.Serialize? || a.Settle? || a.SettleFails?
             || (a.Finish? && !CurrentStep(s, a.h).Op?)
    ensures Emptied(Apply(d, s, a), h)
  {
    EmptiedSame(s, Apply(d, s, a), h);
  }

  lemma KeepsEmptied<A, E>(d: Dialect<A, E>, s: State<A, E>, a: Action<E>, h: nat)
    requires Base(s) && h < |s.handles| && Marked(s, h) && Emptied(s, h) && Enabled(s, a)
    ensures Emptied(Apply(d, s, a), h)
  {
    match a {
      case Begin(g) => EmptiedBegin(d, s, g, h);
      case IssueRead(g) => EmptiedEnqueue(s, Apply(d, s, a), ReadRequest(g), h);
      case Finish(g) => if CurrentStep(s, g).Op? { EmptiedGate(d, s, g, h); } else { EmptiedRest(d, s, a, h); }
      case Land => EmptiedLand(d, s, h);
      case LandFails(reason, landed) => EmptiedLandFails(d, s, reason, landed, h);
      case Return => EmptiedAuthor(d, s, a, h);
      case AuthorThrow(_) => EmptiedAuthor(d, s, a, h);
      case DrainDone => EmptiedDrainDone(d, s, h);
      case _ => EmptiedRest(d, s, a, h);
    }
  }

  lemma {:induction false} RunKeepsEmptied<A, E>(
      d: Dialect<A, E>, files: seq<Option<string>>, actions: seq<Action<E>>, h: nat)
    requires IsPromptRun(d, Init(files), actions, h) && h < |files|
    ensures Emptied(Exec(d, Init(files), actions), h)
    decreases |actions|
  {
    if actions != [] {
      var front := actions[..|actions| - 1];
      RunKeepsEmptied(d, files, front, h);
      RunKeepsBase(d, files, front);
      PromptMark(d, files, front, h);
      KeepsEmptied(d, Exec(d, Init(files), front), actions[|actions| - 1], h);
    }
  }
}

// What the coalescing handles, the session and the run boundary promise together.
module HandleTheorems {
  import opened Prelude
  import opened HandleMachine
  import opened HandleInvariant
  import opened HandleDrain
  import opened HandleFailures
  import opened HandleProofs
  import opened HandleFlush

  // ---------------------------------------------------------------- no edit is lost

  // A committed run has written file `h` exactly as if each op of its handle had been written back
  // at once, whatever the interleaving, however late the batches were serialized and whatever the
  // other handles chain, late or not, query or run into, unless a batch with a directive of this
  // very handle was refused.
  lemma CommitWritesEveryEdit<A, E>(d: Dialect<A, E>, files: seq<Option<string>>, actions: seq<Action<E>>, h: nat)
    requires IsPromptRun(d, Init(files), actions, h) && IsSteadyRun(d, Init(files), actions, h) && h < |files|
    requires Exec(d, Init(files), actions).stage.Committed? && h !in Exec(d, Init(files), actions).lost
    ensures var s := Exec(d, Init(files), actions);
            && |s.handles| == |s.tree| == |files|
            && s.tree[h] == WriteThrough(d, files[h], s.handles[h].chain)
  {
    var s := Exec(d, Init(files), actions);
    PromptRunIsFresh(d, files, actions, h);
    RunKeepsInv(d, files, actions, h);
    RunKeepsFiles(d, files, actions);
    PromptHandleIsFinished(d, files, actions, h);
    RunKeepsEmptied(d, files, actions, h);
    assert Sound(s, h) && TextOk(d, s, h);
    LandedText(d, s, h);
    assert s.handles[h].chain[..s.handles[h].pc] == s.handles[h].chain;
  }

  // When nothing is chained late on any handle, a commit has written every file so.
  lemma PromptCommitWritesEveryFile<A, E>(d: Dialect<A, E>, files: seq<Option<string>>, actions: seq<Action<E>>)
    requires IsRun(d, Init(files), actions) && Exec(d, Init(files), actions).stage.Committed?
    requires forall h: nat :: h < |files| ==> IsPromptRun(d, Init(files), actions, h)
    requires forall h: nat :: h < |files| ==> IsSteadyRun(d, Init(files), actions, h)
    ensures var s := Exec(d, Init(files), actions);
            && |s.handles| == |s.tree| == |files|
            && forall h :: 0 <= h < |files| ==> s.tree[h] == WriteThrough(d, files[h], s.handles[h].chain)
  {
    var s := Exec(d, Init(files), actions);
    FailureBlocksCommit(d, files, actions);
    RunKeepsFiles(d, files, actions);
    forall h | 0 <= h < |files| ensures s.tree[h] == WriteThrough(d, files[h], s.handles[h].chain) {
      CommitWritesEveryEdit(d, files, actions, h);
    }
  }

  // The same at any moment before a discard, whatever other handles have run into: an idle
  // handle with nothing of its own outstanding, rejected or refused finds its finished steps in
  // the tree.
  lemma LandedFileIsWriteThrough<A, E>(d: Dialect<A, E>, files: seq<Option<string>>, actions: seq<Action<E>>, h: nat)
    requires IsFreshRun(d, Init(files), actions, h) && IsSteadyRun(d, Init(files), actions, h) && h < |files|
    requires var s := Exec(d, Init(files), actions);
             !s.stage.Discarded? && Sound(s, h) && s.handles[h].phase.Idle? && NoneOwned(s.dirs, Outstanding(s), h)
    ensures var s := Exec(d, Init(files), actions);
            && h < |s.tree| && s.handles[h].pc <= |s.handles[h].chain|
            && s.tree[h] == WriteThrough(d, files[h], s.handles[h].chain[..s.handles[h].pc])
  {
    var s := Exec(d, Init(files), actions);
    RunKeepsInv(d, files, actions, h);
    RunKeepsFiles(d, files, actions);
    assert TextOk(d, s, h);
    LandedText(d, s, h);
  }

  lemma LandedText<A, E>(d: Dialect<A, E>, s: State<A, E>, h: nat)
    requires h < |s.handles| && |s.tree| == |s.initial| == |s.handles| && TextOk(d, s, h)
    requires !s.handles[h].phase.Working? && NoneOwned(s.dirs, Outstanding(s), h)
    ensures s.tree[h] == WriteThrough(d, s.initial[h], s.handles[h].chain[..s.handles[h].pc])
  {
    OverlayNone(d, s.dirs, s.handles[h].live, h, Outstanding(s), s.tree[h]);
    StandingIsWriteThrough(d, s, h);
  }

  // Every answered read of handle `h` is the file with exactly the ops chained before that read,
  // in any run and whatever failed before or after, unless the run had been discarded or a batch
  // with a directive of that very handle refused.
  lemma ReadsSeeEarlierOps<A, E>(d: Dialect<A, E>, files: seq<Option<string>>, actions: seq<Action<E>>, h: nat)
    requires IsFreshRun(d, Init(files), actions, h) && IsSteadyRun(d, Init(files), actions, h) && h < |files|
    ensures var s := Exec(d, Init(files), actions);
            |s.handles| == |files| &&
            forall i :: 0 <= i < |s.answers| && s.answers[i].h == h && s.answers[i].intact ==>
              var log := s.answers[i];
              && log.position < |s.handles[h].chain| && s.handles[h].chain[log.position].Read?
              && log.text == WriteThrough(d, files[h], s.handles[h].chain[..log.position])
  {
    var s := Exec(d, Init(files), actions);
    RunKeepsInv(d, files, actions, h);
    RunKeepsFiles(d, files, actions);
    forall i | 0 <= i < |s.answers| && s.answers[i].h == h && s.answers[i].intact
      ensures AnswerOk(d, s, s.answers[i])
    {}
  }

  ghost predicate AllIntact<A, E>(s: State<A, E>) {
    forall i :: 0 <= i < |s.answers| ==> s.answers[i].intact
  }

  // In every run, while nothing has failed every answer counts.
  lemma {:induction false} CleanAnswersAreIntact<A, E>(
      d: Dialect<A, E>, files: seq<Option<string>>, actions: seq<Action<E>>)
    requires IsRun(d, Init(files), actions) && Clean(Exec(d, Init(files), actions))
    ensures AllIntact(Exec(d, Init(files), actions))
    decreases |actions|
  {
    if actions != [] {
      var front, a := actions[..|actions| - 1], actions[|actions| - 1];
      var mid := Exec(d, Init(files), front);
      RunKeepsBase(d, files, front);
      if !Clean(mid) { StaysUnclean(d, mid, a); }
      CleanAnswersAreIntact(d, files, front);
      AnswerIsIntact(d, mid, a);
    }
  }

  lemma AnswerIsIntact<A, E>(d: Dialect<A, E>, s: State<A, E>, a: Action<E>)
    requires Clean(s) && Poison(s) && Enabled(s, a) && AllIntact(s)
    ensures AllIntact(Apply(d, s, a))
  {
    if a.Land? {
      LandGrows(d, s);
    } else if a.Finish? || a.LandFails? {
      FinishGrows(d, s, a);
    } else {
      OthersGrow(d, s, a);
    }
    forall i | 0 <= i < |Apply(d, s, a).answers| ensures Apply(d, s, a).answers[i].intact {
      if i < |s.answers| { assert Apply(d, s, a).answers[i] == s.answers[i]; }
    }
  }

  // ---------------------------------------------------------------- silent handles

  ghost predicate Owns<A, E>(s: State<A, E>, h: nat) {
    exists id :: 0 <= id < |s.dirs| && s.dirs[id].owner == h
  }

  // Some prefix of the edits made so far prints something else than the file held.
  ghost predicate Changed<A, E>(d: Dialect<A, E>, s: State<A, E>, h: nat)
    requires h < |s.handles| && h < |s.initial|
  {
    exists k :: 0 <= k <= |s.handles[h].applied| && PrefixChanges(d, s.initial[h], s.handles[h].applied, k)
  }

  ghost predicate PrefixChanges<A, E>(d: Dialect<A, E>, original: Option<string>, applied: seq<E>, k: nat)
    requires k <= |applied|
  {
    original.Some? && d.parse(original.value).Some?
    && d.render(ApplyAll(d, applied[..k], d.parse(original.value).value)) != original.value
  }

  // The live AST is what the edits made of the file the handle started from.
  ghost predicate Untouched<A, E>(d: Dialect<A, E>, s: State<A, E>, h: nat)
    requires h < |s.handles| && h < |s.initial| && h < |s.tree|
  {
    var x := s.handles[h];
    && s.tree[h] == s.initial[h]
    && (x.live.Some? ==>
          && s.initial[h] == Some(x.last) && d.parse(x.last).Some?
          && x.live.value == ApplyAll(d, x.applied, d.parse(x.last).value))
  }

  ghost predicate Quiet<A, E>(d: Dialect<A, E>, s: State<A, E>, h: nat) {
    && h < |s.handles| && h < |s.initial| && h < |s.tree|
    && (s.handles[h].live.None? ==> s.handles[h].applied == [])
    && (if Owns(s, h) then Changed(d, s, h) else Untouched(d, s, h))
  }

  lemma StaysChanged<A, E>(d: Dialect<A, E>, s: State<A, E>, s': State<A, E>, h: nat)
    requires h < |s.handles| && h < |s.initial| && s'.initial == s.initial && h < |s'.handles|
    requires s.handles[h].applied <= s'.handles[h].applied && Changed(d, s, h)
    ensures Changed(d, s', h)
  {
    var k :| 0 <= k <= |s.handles[h].applied| && PrefixChanges(d, s.initial[h], s.handles[h].applied, k);
    assert s'.handles[h].applied[..k] == s.handles[h].applied[..k];
    assert PrefixChanges(d, s'.initial[h], s'.handles[h].applied, k);
  }

  lemma QuietFinish<A, E>(d: Dialect<A, E>, s: State<A, E>, g: nat, h: nat)
    requires Structure(s) && Enabled(s, Finish(g)) && CurrentStep(s, g).Op? && Quiet(d, s, h)
    ensures Quiet(d, ApplyGate(d, s, g), h)
  {
    GateEffect(d, s, g, h);
    if Owns(s, h) {
      StaysChanged(d, s, ApplyGate(d, s, g), h);
    } else if Owns(ApplyGate(d, s, g), h) {
      GateChanges(d, s, h);
    }
  }

  // What a gate leaves alone, and that it gives no other handle a directive.
  lemma GateEffect<A, E>(d: Dialect<A, E>, s: State<A, E>, g: nat, h: nat)
    requires Structure(s) && Enabled(s, Finish(g)) && CurrentStep(s, g).Op? && h < |s.handles|
    ensures var s' := ApplyGate(d, s, g);
            && s'.tree == s.tree && s'.initial == s.initial && |s'.handles| == |s.handles|
            && s'.handles[h].applied == s.handles[h].applied && s'.handles[h].live == s.handles[h].live
            && (Owns(s, h) ==> Owns(s', h))
            && (Owns(s', h) && !Owns(s, h) ==> g == h)
            && (!Owns(s', h) ==> s'.handles[h].last == s.handles[h].last)
  {
    var s' := ApplyGate(d, s, g);
    assert HandleOk(s, g);
    assert |s.dirs| <= |s'.dirs|;
    assert forall id :: 0 <= id < |s.dirs| ==> s'.dirs[id].owner == s.dirs[id].owner;
    if Owns(s, h) {
      var id :| 0 <= id < |s.dirs| && s.dirs[id].owner == h;
      assert s'.dirs[id].owner == h;
    }
    if g == h && |s'.dirs| > |s.dirs| { assert s'.dirs[|s.dirs|].owner == h; }
  }

  lemma OpenIsOwned<A, E>(s: State<A, E>, h: nat)
    requires Structure(s) && h < |s.handles|
    ensures s.handles[h].open.Some? ==> Owns(s, h)
  {
    assert HandleOk(s, h);
    if s.handles[h].open.Some? { assert s.dirs[s.handles[h].open.value].owner == h; }
  }

  // A first directive is registered only for a print that differs from the file.
  lemma GateChanges<A, E>(d: Dialect<A, E>, s: State<A, E>, h: nat)
    requires Structure(s) && Enabled(s, Finish(h)) && CurrentStep(s, h).Op? && Quiet(d, s, h)
    requires !Owns(s, h) && Owns(ApplyGate(d, s, h), h)
    ensures Changed(d, ApplyGate(d, s, h), h)
  {
    var s', x := ApplyGate(d, s, h), s.handles[h];
    OpenIsOwned(s, h);
    assert x.open.None?;
    assert x.applied[..|x.applied|] == x.applied;
    assert s'.handles[h].applied == x.applied;
    assert PrefixChanges(d, s'.initial[h], s'.handles[h].applied, |x.applied|);
  }

  lemma SameOwners<A, E>(s: State<A, E>, s': State<A, E>, h: nat)
    requires |s'.dirs| == |s.dirs| && forall id :: 0 <= id < |s.dirs| ==> s'.dirs[id].owner == s.dirs[id].owner
    ensures Owns(s', h) <==> Owns(s, h)
  {
    if Owns(s, h) {
      var id :| 0 <= id < |s.dirs| && s.dirs[id].owner == h;
      assert s'.dirs[id].owner == h;
    }
  }

  lemma QuietLandEmit<A, E>(d: Dialect<A, E>, s: State<A, E>, h: nat)
    requires DrainInv(s) && Enabled(s, Land) && Quiet(d, s, h) && !s.queue[0].ReadRequest?
    ensures Quiet(d, ApplyLand(d, s), h)
  {
    HeadFits(s);
    QuietWrite(d, s, ApplyLand(d, s), if s.queue[0].EmitRequest? then s.queue[0].ids else [], h);
  }

  // Landing directives touches no file of a handle that has none.
  lemma QuietWrite<A, E>(d: Dialect<A, E>, s: State<A, E>, s': State<A, E>, ids: seq<nat>, h: nat)
    requires Quiet(d, s, h) && s'.dirs == s.dirs && s'.initial == s.initial && h < |s'.handles|
    requires s'.tree == WriteAll(s.tree, s.dirs, ids)
    requires s'.handles[h].applied == s.handles[h].applied && s'.handles[h].live == s.handles[h].live
    requires s'.handles[h].last == s.handles[h].last
    ensures Quiet(d, s', h)
  {
    SameOwners(s, s', h);
    if Owns(s, h) { StaysChanged(d, s, s', h); } else { WriteAllSpares(s.tree, s.dirs, ids, h); }
  }

  lemma QuietLandRead<A, E>(d: Dialect<A, E>, s: State<A, E>, h: nat)
    requires Structure(s) && Enabled(s, Land) && Quiet(d, s, h) && s.queue[0].ReadRequest?
    ensures Quiet(d, ApplyLand(d, s), h)
  {
    var s' := ApplyLand(d, s);
    SameOwners(s, s', h);
    RequestOkHead(s);
    ReplyEffect(d, s, h);
    if Owns(s, h) { StaysChanged(d, s, s', h); }
  }

  // A reply writes no file and either keeps a handle's AST and baseline or sets them to the file
  // read, when there was no AST yet.
  lemma ReplyEffect<A, E>(d: Dialect<A, E>, s: State<A, E>, h: nat)
    requires Structure(s) && Enabled(s, Land) && h < |s.handles| && s.queue[0].ReadRequest?
    ensures var s' := ApplyLand(d, s);
            && s'.tree == s.tree && s'.initial == s.initial && s'.dirs == s.dirs && |s'.handles| == |s.handles|
            && s'.handles[h].applied == s.handles[h].applied
            && ((s'.handles[h].live == s.handles[h].live && s'.handles[h].last == s.handles[h].last)
                || (s.handles[h].live.None? && s.tree[h] == Some(s'.handles[h].last)
                    && s'.handles[h].live.Some? && s'.handles[h].live == d.parse(s'.handles[h].last)))
  {
    RequestOkHead(s);
    assert HandleOk(s, h);
  }

  lemma QuietEdit<A, E>(d: Dialect<A, E>, s: State<A, E>, g: nat, h: nat)
    requires Enabled(s, Edit(g)) && Quiet(d, s, h)
    ensures Quiet(d, Apply(d, s, Edit(g)), h)
  {
    var s' := Apply(d, s, Edit(g));
    var x, x' := s.handles[h], s'.handles[h];
    SameOwners(s, s', h);
    if Owns(s, h) {
      StaysChanged(d, s, s', h);
    } else if g == h {
      assert x'.applied[..|x.applied|] == x.applied;
    }
  }

  lemma QuietOther<A, E>(d: Dialect<A, E>, s: State<A, E>, a: Action<E>, h: nat)
    requires Enabled(s, a) && !a.Land? && !a.LandFails? && !a.Edit? && !(a.Finish? && CurrentStep(s, a.h).Op?)
    requires Quiet(d, s, h)
    ensures Quiet(d, Apply(d, s, a), h)
  {
    var s' := Apply(d, s, a);
    QuietKeptFiles(s, s', a, d);
    QuietKeptHandle(s, s', a, d, h);
    SameOwners(s, s', h);
    if Owns(s, h) { StaysChanged(d, s, s', h); }
  }

  lemma QuietKeptFiles<A, E>(s: State<A, E>, s': State<A, E>, a: Action<E>, d: Dialect<A, E>)
    requires Enabled(s, a) && !a.Land? && !a.LandFails? && !(a.Finish? && CurrentStep(s, a.h).Op?)
    requires s' == Apply(d, s, a)
    ensures |s'.dirs| == |s.dirs| && forall id :: 0 <= id < |s.dirs| ==> s'.dirs[id].owner == s.dirs[id].owner
    ensures s'.initial == s.initial && s'.tree == s.tree
  {
  }

  // A handle's AST, its baseline and the edits made before stay.
  ghost predicate KeepsBaseline<A, E>(x: Handle<A, E>, x': Handle<A, E>) {
    x'.applied == x.applied && x'.last == x.last && x'.live == x.live
  }

  lemma QuietKeptHandle<A, E>(s: State<A, E>, s': State<A, E>, a: Action<E>, d: Dialect<A, E>, h: nat)
    requires Enabled(s, a) && !a.Land? && !a.LandFails? && !a.Edit? && !(a.Finish? && CurrentStep(s, a.h).Op?)
    requires s' == Apply(d, s, a) && h < |s.handles|
    ensures |s'.handles| == |s.handles| && KeepsBaseline(s.handles[h], s'.handles[h])
  {
    if a.Begin? || a.Finish? || a.Throw? { KeptByStep(s, s', a, d, h); } else { KeptByRest(s, s', a, d, h); }
  }

  lemma KeptByStep<A, E>(s: State<A, E>, s': State<A, E>, a: Action<E>, d: Dialect<A, E>, h: nat)
    requires Enabled(s, a) && (a.Begin? || a.Throw? || (a.Finish? && !CurrentStep(s, a.h).Op?))
    requires s' == Apply(d, s, a) && h < |s.handles|
    ensures |s'.handles| == |s.handles| && KeepsBaseline(s.handles[h], s'.handles[h])
  {
  }

  lemma KeptByRest<A, E>(s: State<A, E>, s': State<A, E>, a: Action<E>, d: Dialect<A, E>, h: nat)
    requires Enabled(s, a) && !a.Land? && !a.LandFails? && !a.Begin? && !a.Finish? && !a.Edit? && !a.Throw?
    requires s' == Apply(d, s, a) && h < |s.handles|
    ensures |s'.handles| == |s.handles| && KeepsBaseline(s.handles[h], s'.handles[h])
  {
  }

  lemma QuietLandFails<A, E>(d: Dialect<A, E>, s: State<A, E>, reason: string, landed: nat, h: nat)
    requires DrainInv(s) && Enabled(s, LandFails(reason, landed)) && Quiet(d, s, h)
    ensures Quiet(d, ApplyLandFails(s, reason, landed), h)
  {
    HeadFits(s);
    var head := s.queue[0];
    var ids := if head.EmitRequest? && head.waiter.ByHandle? then head.ids[..landed] else [];
    QuietWrite(d, s, ApplyLandFails(s, reason, landed), ids, h);
  }

  lemma KeepsQuiet<A, E>(d: Dialect<A, E>, s: State<A, E>, a: Action<E>, h: nat)
    requires Base(s) && Enabled(s, a) && Quiet(d, s, h)
    ensures Quiet(d, Apply(d, s, a), h)
  {
    if a.Land? {
      if s.queue[0].ReadRequest? { QuietLandRead(d, s, h); } else { QuietLandEmit(d, s, h); }
    } else if a.LandFails? {
      QuietLandFails(d, s, a.reason, a.landed, h);
    } else if a.Edit? {
      QuietEdit(d, s, a.h, h);
    } else if a.Finish? && CurrentStep(s, a.h).Op? {
      QuietFinish(d, s, a.h, h);
    } else {
      QuietOther(d, s, a, h);
    }
  }

  lemma {:induction false} RunKeepsQuiet<A, E>(
      d: Dialect<A, E>, files: seq<Option<string>>, actions: seq<Action<E>>, h: nat)
    requires IsRun(d, Init(files), actions) && h < |files|
    ensures Quiet(d, Exec(d, Init(files), actions), h)
    decreases |actions|
  {
    if actions != [] {
      var front := actions[..|actions| - 1];
      RunKeepsQuiet(d, files, front, h);
      RunKeepsBase(d, files, front);
      KeepsQuiet(d, Exec(d, Init(files), front), actions[|actions| - 1], h);
    }
  }

  // In every run, failed and discarded ones included, a handle whose edits never change the print
  // emits no directive and its file stays what it was.
  lemma SilentHandleEmitsNothing<A, E>(d: Dialect<A, E>, files: seq<Option<string>>, actions: seq<Action<E>>, h: nat)
    requires IsRun(d, Init(files), actions) && h < |files| && h < |Exec(d, Init(files), actions).handles|
    requires var applied := Exec(d, Init(files), actions).handles[h].applied;
             forall k :: 0 <= k <= |applied| ==> !PrefixChanges(d, files[h], applied, k)
    ensures var s := Exec(d, Init(files), actions);
            && h < |s.tree| && s.tree[h] == files[h]
            && forall id :: 0 <= id < |s.dirs| ==> s.dirs[id].owner != h
  {
    var s := Exec(d, Init(files), actions);
    RunKeepsQuiet(d, files, actions, h);
    RunKeepsFiles(d, files, actions);
    assert !Changed(d, s, h);
    assert !Owns(s, h);
  }

  // ---------------------------------------------------------------- the run's end

  ghost predicate NoSettleRejected<A, E>(s: State<A, E>) {
    forall h :: 0 <= h < |s.handles| ==> !s.handles[h].settlement.SettleRejected?
  }

  ghost predicate Blames<A, E>(s: State<A, E>) {
    s.stage.Discarded? && s.stage.cause.DrainRejected? && NoSettleRejected(s) ==>
      s.failures != [] && s.stage.error == s.failures[0]
  }

  lemma {:induction false} DrainErrorIsFirstFailure<A, E>(s: State<A, E>, order: seq<nat>)
    requires Poison(s) && NoSettleRejected(s) && DrainError(s, order).Some?
    ensures s.failures != [] && DrainError(s, order).value == s.failures[0]
  {
    if !(order[0] < |s.handles| && TailRejected(s.handles[order[0]])) {
      DrainErrorIsFirstFailure(s, order[1..]);
    }
  }

  lemma KeepsBlames<A, E>(d: Dialect<A, E>, s: State<A, E>, a: Action<E>)
    requires DrainInv(s) && Poison(s) && Blames(s) && Enabled(s, a)
    ensures Blames(Apply(d, s, a))
  {
    var s' := Apply(d, s, a);
    if s.stage.Discarded? {
      VerdictIsFinal(d, s, a);
      DiscardedTurn(d, s, a);
    } else if a.DrainDone? {
      if DrainError(s, s.draining).Some? && NoSettleRejected(s') {
        assert forall h :: 0 <= h < |s.handles| ==> s'.handles[h] == s.handles[h];
        DrainErrorIsFirstFailure(s, s.draining);
      }
    } else {
      OnlyDrainRejects(d, s, a);
    }
  }

  lemma OnlyDrainRejects<A, E>(d: Dialect<A, E>, s: State<A, E>, a: Action<E>)
    requires Enabled(s, a) && !a.DrainDone? && !s.stage.Discarded?
    ensures !(Apply(d, s, a).stage.Discarded? && Apply(d, s, a).stage.cause.DrainRejected?)
  {
  }

  lemma DiscardedTurn<A, E>(d: Dialect<A, E>, s: State<A, E>, a: Action<E>)
    requires s.stage.Discarded? && Enabled(s, a)
    ensures s.failures <= Apply(d, s, a).failures
    ensures NoSettleRejected(Apply(d, s, a)) ==> NoSettleRejected(s)
  {
    var s' := Apply(d, s, a);
    FailuresGrow(d, s, a);
    if NoSettleRejected(s') {
      forall h | 0 <= h < |s.handles| ensures !s.handles[h].settlement.SettleRejected? {
        SettlementKept(d, s, a, h);
      }
    }
  }

  lemma SettlementKept<A, E>(d: Dialect<A, E>, s: State<A, E>, a: Action<E>, h: nat)
    requires s.stage.Discarded? && Enabled(s, a) && h < |s.handles|
    ensures |Apply(d, s, a).handles| == |s.handles|
    ensures Apply(d, s, a).handles[h].settlement == s.handles[h].settlement
  {
    if a.Land? || a.LandFails? { LandKeepsSettlement(d, s, a, h); }
  }

  lemma LandKeepsSettlement<A, E>(d: Dialect<A, E>, s: State<A, E>, a: Action<E>, h: nat)
    requires (a.Land? || a.LandFails?) && Enabled(s, a) && h < |s.handles|
    ensures |Apply(d, s, a).handles| == |s.handles|
    ensures Apply(d, s, a).handles[h].settlement == s.handles[h].settlement
  {
  }

  lemma {:induction false} RunKeepsBlames<A, E>(d: Dialect<A, E>, files: seq<Option<string>>, actions: seq<Action<E>>)
    requires IsRun(d, Init(files), actions)
    ensures Blames(Exec(d, Init(files), actions))
    decreases |actions|
  {
    if actions != [] {
      var front := actions[..|actions| - 1];
      RunKeepsBlames(d, files, front);
      RunKeepsDrain(d, files, front);
      RunKeepsPoison(d, files, front);
      KeepsBlames(d, Exec(d, Init(files), front), actions[|actions| - 1]);
    }
  }

  // In every run that the drain ends while no forced print has failed, the run's error is the
  // reason of the step that failed first, whichever handle the drain looked at first.
  lemma RunErrorIsEarliestFailure<A, E>(d: Dialect<A, E>, files: seq<Option<string>>, actions: seq<Action<E>>)
    requires IsRun(d, Init(files), actions)
    requires var s := Exec(d, Init(files), actions);
             s.stage.Discarded? && s.stage.cause.DrainRejected? && NoSettleRejected(s)
    ensures var s := Exec(d, Init(files), actions);
            s.failures != [] && s.stage.error == s.failures[0]
  {
    RunKeepsBlames(d, files, actions);
  }
}

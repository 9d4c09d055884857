// When the drain lets a run go on, and that no rejected step is ever followed by a commit: over
// every run, whatever is chained while the drain is under way.
module HandleDrain {
  import opened Prelude
  import opened HandleMachine
  import opened HandleInvariant

  // ---------------------------------------------------------------- what every run keeps

  lemma InitDrain<A, E>(files: seq<Option<string>>)
    ensures DrainInv(Init<A, E>(files))
  {
  }

  // A turn of handle `h` that enqueues nothing and takes nothing off the queue.
  lemma OwnTurn<A, E>(s: State<A, E>, s': State<A, E>, h: nat)
    requires DrainInv(s) && h < |s.handles| && |s'.handles| == |s.handles|
    requires s'.queue == s.queue && s'.stage == s.stage && s'.draining == s.draining
    requires forall g :: g in s.registry ==> g in s'.registry
    requires forall g :: 0 <= g < |s.handles| && g != h ==> s'.handles[g] == s.handles[g]
    requires s'.handles[h].phase != s.handles[h].phase ==>
               !s.handles[h].phase.AwaitEmit? && !s.handles[h].phase.AwaitRead?
    requires DrainOk(s', h)
    ensures DrainInv(s')
  {
    forall i: nat | i < |s'.queue| ensures RequestFits(s', i) { assert RequestFits(s, i); }
    forall g | 0 <= g < |s.handles| ensures DrainOk(s', g) { assert DrainOk(s, g); }
  }

  // Handle `h`, which awaits nothing, puts a request at the end of the queue.
  lemma Enqueued<A, E>(s: State<A, E>, s': State<A, E>, h: nat, r: Request)
    requires DrainInv(s) && h < |s.handles| && |s'.handles| == |s.handles| && OwnerOf(r) == Some(h)
    requires s'.queue == s.queue + [r] && s'.stage == s.stage && s'.draining == s.draining && s'.registry == s.registry
    requires forall g :: 0 <= g < |s.handles| && g != h ==> s'.handles[g] == s.handles[g]
    requires !s.handles[h].phase.AwaitEmit? && !s.handles[h].phase.AwaitRead?
    requires DrainOk(s', h) && RequestFits(s', |s.queue|)
    ensures DrainInv(s')
  {
    forall i: nat | i < |s'.queue| ensures RequestFits(s', i) { if i < |s.queue| { assert RequestFits(s, i); } }
    forall i, j | 0 <= i < j < |s'.queue|
      ensures OwnerOf(s'.queue[i]) != OwnerOf(s'.queue[j])
    {
      assert RequestFits(s, i);
    }
    forall g | 0 <= g < |s.handles| ensures DrainOk(s', g) { assert DrainOk(s, g); }
  }

  // The head of the queue is answered, and its own handle moves on.
  lemma Dequeued<A, E>(s: State<A, E>, s': State<A, E>, h: nat)
    requires DrainInv(s) && s.queue != [] && OwnerOf(s.queue[0]) == Some(h) && h < |s.handles| == |s'.handles|
    requires s'.queue == s.queue[1..] && s'.stage == s.stage && s'.draining == s.draining && s'.registry == s.registry
    requires forall g :: 0 <= g < |s.handles| && g != h ==> s'.handles[g] == s.handles[g]
    requires DrainOk(s', h)
    ensures DrainInv(s')
  {
    forall i: nat | i < |s'.queue| ensures RequestFits(s', i) {
      assert RequestFits(s, i + 1) && s'.queue[i] == s.queue[i + 1];
      assert OwnerOf(s.queue[0]) != OwnerOf(s.queue[i + 1]);
    }
    forall i, j | 0 <= i < j < |s'.queue| ensures OwnerOf(s'.queue[i]) != OwnerOf(s'.queue[j]) {
      assert OwnerOf(s.queue[i + 1]) != OwnerOf(s.queue[j + 1]);
    }
    forall g | 0 <= g < |s.handles| ensures DrainOk(s', g) { assert DrainOk(s, g); }
  }

  // Nothing of the run's own is in the queue unless the run is flushing or committing.
  lemma NoRunRequest<A, E>(s: State<A, E>)
    requires DrainInv(s) && !s.stage.Flushing? && !s.stage.Committing?
    ensures forall i :: 0 <= i < |s.queue| ==> OwnerOf(s.queue[i]).Some?
  {
    forall i | 0 <= i < |s.queue| ensures OwnerOf(s.queue[i]).Some? { assert RequestFits(s, i); }
  }

  lemma HeadFits<A, E>(s: State<A, E>)
    requires DrainInv(s) && s.queue != []
    ensures RequestFits(s, 0)
    ensures OwnerOf(s.queue[0]).Some? ==>
              OwnerOf(s.queue[0]).value < |s.handles| && DrainOk(s, OwnerOf(s.queue[0]).value)
    ensures OwnerOf(s.queue[0]).Some? ==> Runnable(s, OwnerOf(s.queue[0]).value)
  {
    assert RequestFits(s, 0);
    if OwnerOf(s.queue[0]).Some? { assert DrainOk(s, OwnerOf(s.queue[0]).value); }
  }

  // ---------------------------------------------------------------- turn by turn

  lemma BeginDrain<A, E>(d: Dialect<A, E>, s: State<A, E>, h: nat)
    requires DrainInv(s) && Enabled(s, Begin(h))
    ensures DrainInv(ApplyBegin(d, s, h))
  {
    var s' := ApplyBegin(d, s, h);
    assert DrainOk(s, h);
    if s'.queue == s.queue { OwnTurn(s, s', h); } else { Enqueued(s, s', h, EmitRequest(s.pending, ByHandle(h))); }
  }

  lemma FinishDrain<A, E>(d: Dialect<A, E>, s: State<A, E>, h: nat)
    requires DrainInv(s) && Enabled(s, Finish(h))
    ensures DrainInv(Apply(d, s, Finish(h)))
  {
    assert DrainOk(s, h);
    if CurrentStep(s, h).Op? { OwnTurn(s, ApplyGate(d, s, h), h); } else { OwnTurn(s, ApplyQueryEnd(d, s, h), h); }
  }

  // The turns of one handle that leave the queue alone.
  lemma QuietDrain<A, E>(d: Dialect<A, E>, s: State<A, E>, a: Action<E>)
    requires DrainInv(s) && Enabled(s, a)
    requires a.Chain? || a.Edit? || a.Throw? || a.Settle? || a.SettleFails?
    ensures DrainInv(Apply(d, s, a))
  {
    assert DrainOk(s, a.h);
    OwnTurn(s, Apply(d, s, a), a.h);
  }

  lemma LandDrain<A, E>(d: Dialect<A, E>, s: State<A, E>)
    requires DrainInv(s) && Enabled(s, Land)
    ensures DrainInv(ApplyLand(d, s))
  {
    HeadFits(s);
    if OwnerOf(s.queue[0]).Some? {
      Dequeued(s, ApplyLand(d, s), OwnerOf(s.queue[0]).value);
    } else {
      RunLandDrain(d, s);
    }
  }

  lemma RunLandDrain<A, E>(d: Dialect<A, E>, s: State<A, E>)
    requires DrainInv(s) && Enabled(s, Land) && OwnerOf(s.queue[0]).None?
    ensures DrainInv(ApplyLand(d, s))
  {
    var s' := ApplyLand(d, s);
    HeadFits(s);
    forall i: nat | i < |s.queue| - 1 ensures RequestFits(s', i) && OwnerOf(s'.queue[i]).Some? {
      assert RequestFits(s, i + 1) && OwnerOf(s.queue[0]) != OwnerOf(s.queue[i + 1]);
    }
    forall i, j | 0 <= i < j < |s'.queue| ensures OwnerOf(s'.queue[i]) != OwnerOf(s'.queue[j]) {
      if j < |s.queue| - 1 { assert OwnerOf(s.queue[i + 1]) != OwnerOf(s.queue[j + 1]); }
    }
    forall g | 0 <= g < |s.handles| ensures DrainOk(s', g) { assert DrainOk(s, g); }
  }

  lemma LandFailsDrain<A, E>(s: State<A, E>, reason: string, landed: nat)
    requires DrainInv(s) && Enabled(s, LandFails(reason, landed))
    ensures DrainInv(ApplyLandFails(s, reason, landed))
  {
    var s' := ApplyLandFails(s, reason, landed);
    HeadFits(s);
    if OwnerOf(s.queue[0]).Some? {
      Dequeued(s, s', OwnerOf(s.queue[0]).value);
    } else {
      forall i: nat | i < |s'.queue| ensures RequestFits(s', i) {
        assert RequestFits(s, i + 1) && OwnerOf(s.queue[0]) != OwnerOf(s.queue[i + 1]);
      }
      forall i, j | 0 <= i < j < |s'.queue| ensures OwnerOf(s'.queue[i]) != OwnerOf(s'.queue[j]) {
        assert OwnerOf(s.queue[i + 1]) != OwnerOf(s.queue[j + 1]);
      }
      forall g | 0 <= g < |s.handles| ensures DrainOk(s', g) { assert DrainOk(s, g); }
    }
  }

  // The author's function returns or throws.
  lemma AuthorDrain<A, E>(d: Dialect<A, E>, s: State<A, E>, a: Action<E>)
    requires DrainInv(s) && Enabled(s, a) && (a.Return? || a.AuthorThrow?)
    ensures DrainInv(Apply(d, s, a))
  {
    var s' := Apply(d, s, a);
    NoRunRequest(s);
    forall i: nat | i < |s'.queue| ensures RequestFits(s', i) { assert RequestFits(s, i); }
    forall g | 0 <= g < |s.handles| ensures DrainOk(s', g) { assert DrainOk(s, g); }
  }

  lemma {:induction false} FirstBlame<A, E>(s: State<A, E>, order: seq<nat>)
    ensures DrainError(s, order).None? <==>
            forall h :: h in order && h < |s.handles| ==>
              !TailRejected(s.handles[h]) && !s.handles[h].settlement.SettleRejected?
  {
    if order != [] {
      FirstBlame(s, order[1..]);
      assert order == [order[0]] + order[1..];
    }
  }

  // The drain lets the run go on if and only if every step it waits for, on every handle, has
  // succeeded and no forced print has failed.
  lemma DrainGoesOnExactly<A, E>(s: State<A, E>)
    requires DrainInv(s) && Enabled(s, DrainDone)
    ensures PastDrain(ApplyDrainDone(s).stage) <==> forall h :: 0 <= h < |s.handles| ==> Through(s.handles[h])
  {
    FirstBlame(s, s.draining);
    if DrainError(s, s.draining).None? {
      forall h | 0 <= h < |s.handles| ensures Through(s.handles[h]) { assert DrainOk(s, h); }
    }
    if forall h :: 0 <= h < |s.handles| ==> Through(s.handles[h]) {
      forall h | h in s.draining && h < |s.handles|
        ensures !TailRejected(s.handles[h]) && !s.handles[h].settlement.SettleRejected?
      {
        assert Through(s.handles[h]);
      }
    }
  }

  lemma DrainDoneDrain<A, E>(d: Dialect<A, E>, s: State<A, E>)
    requires DrainInv(s) && Enabled(s, DrainDone)
    ensures DrainInv(Apply(d, s, DrainDone))
  {
    var s' := ApplyDrainDone(s);
    DrainGoesOnExactly(s);
    NoRunRequest(s);
    forall i: nat | i < |s'.queue| ensures RequestFits(s', i) { if i < |s.queue| { assert RequestFits(s, i); } }
    forall i, j | 0 <= i < j < |s'.queue| ensures OwnerOf(s'.queue[i]) != OwnerOf(s'.queue[j]) {}
    forall g | 0 <= g < |s.handles| ensures DrainOk(s', g) { assert DrainOk(s, g); }
  }

  lemma KeepsDrain<A, E>(d: Dialect<A, E>, s: State<A, E>, a: Action<E>)
    requires DrainInv(s) && Enabled(s, a)
    ensures DrainInv(Apply(d, s, a))
  {
    match a {
      case Begin(h) => BeginDrain(d, s, h);
      case IssueRead(h) =>
        assert DrainOk(s, h);
        Enqueued(s, Apply(d, s, a), h, ReadRequest(h));
      case Finish(h) => FinishDrain(d, s, h);
      case Serialize => SerializeDrain(d, s);
      case Land => LandDrain(d, s);
      case LandFails(reason, landed) => LandFailsDrain(s, reason, landed);
      case DrainDone => DrainDoneDrain(d, s);
      case Return => AuthorDrain(d, s, a);
      case AuthorThrow(_) => AuthorDrain(d, s, a);
      case _ => QuietDrain(d, s, a);
    }
  }

  lemma SerializeDrain<A, E>(d: Dialect<A, E>, s: State<A, E>)
    requires DrainInv(s) && Enabled(s, Serialize)
    ensures DrainInv(Apply(d, s, Serialize))
  {
    var s' := Apply(d, s, Serialize);
    forall i: nat | i < |s'.queue| ensures RequestFits(s', i) { assert RequestFits(s, i); }
    forall g | 0 <= g < |s.handles| ensures DrainOk(s', g) { assert DrainOk(s, g); }
  }

  lemma {:induction false} RunKeepsDrain<A, E>(d: Dialect<A, E>, files: seq<Option<string>>, actions: seq<Action<E>>)
    requires IsRun(d, Init(files), actions)
    ensures DrainInv(Exec(d, Init(files), actions))
    decreases |actions|
  {
    if actions == [] {
      InitDrain<A, E>(files);
    } else {
      var front := actions[..|actions| - 1];
      RunKeepsDrain(d, files, front);
      KeepsDrain(d, Exec(d, Init(files), front), actions[|actions| - 1]);
    }
  }

  // ---------------------------------------------------------------- what it adds up to

  // In every run, once the run is past its drain every step chained before the author's function
  // returned has succeeded, and every forced print.
  lemma CommitMeansEveryStepSucceeded<A, E>(d: Dialect<A, E>, files: seq<Option<string>>, actions: seq<Action<E>>)
    requires IsRun(d, Init(files), actions) && PastDrain(Exec(d, Init(files), actions).stage)
    ensures var s := Exec(d, Init(files), actions);
            forall h :: 0 <= h < |s.handles| ==> Through(s.handles[h])
  {
    RunKeepsDrain(d, files, actions);
    var s := Exec(d, Init(files), actions);
    forall h | 0 <= h < |s.handles| ensures Through(s.handles[h]) { assert DrainOk(s, h); }
  }

  // The verdict of a run, once reached, is final: committed or discarded, never both.
  lemma VerdictIsFinal<A, E>(d: Dialect<A, E>, s: State<A, E>, a: Action<E>)
    requires DrainInv(s) && Enabled(s, a) && (s.stage.Committed? || s.stage.Discarded?)
    ensures Apply(d, s, a).stage == s.stage
  {
    NoRunRequest(s);
  }

  // Handle `h` has rejected a step chained before the author's function returned: the function
  // has not returned yet, or the drain waits for the step, or the run is discarded already.
  ghost predicate Doomed<A, E>(s: State<A, E>, h: nat) {
    && h < |s.handles| && s.handles[h].rejected.Some?
    && (s.stage.Authoring? || s.stage.Discarded? || s.handles[h].pc < s.handles[h].drainTo)
  }

  ghost predicate Stands<A, E>(x: Handle<A, E>, x': Handle<A, E>) {
    x'.rejected == x.rejected && x'.pc == x.pc && x'.drainTo == x.drainTo
  }

  // A rejected handle takes no further turn.
  lemma TurnStands<A, E>(d: Dialect<A, E>, s: State<A, E>, a: Action<E>, h: nat)
    requires Enabled(s, a) && h < |s.handles| && s.handles[h].rejected.Some?
    requires !a.Land? && !a.LandFails? && !a.Return? && !a.DrainDone? && !a.AuthorThrow?
    ensures var s' := Apply(d, s, a);
            s'.stage == s.stage && |s'.handles| == |s.handles| && Stands(s.handles[h], s'.handles[h])
  {
  }

  lemma LandStands<A, E>(d: Dialect<A, E>, s: State<A, E>, a: Action<E>, h: nat)
    requires DrainInv(s) && Enabled(s, a) && h < |s.handles| && s.handles[h].rejected.Some? && (a.Land? || a.LandFails?)
    ensures |Apply(d, s, a).handles| == |s.handles| && Stands(s.handles[h], Apply(d, s, a).handles[h])
    ensures s.stage.Authoring? || s.stage.Discarded? ==> Apply(d, s, a).stage == s.stage
  {
    HeadFits(s);
    if !s.stage.Flushing? && !s.stage.Committing? { NoRunRequest(s); }
  }

  lemma StaysDoomed<A, E>(d: Dialect<A, E>, s: State<A, E>, a: Action<E>, h: nat)
    requires DrainInv(s) && Doomed(s, h) && Enabled(s, a)
    ensures Doomed(Apply(d, s, a), h)
  {
    assert DrainOk(s, h);
    if a.Land? || a.LandFails? {
      LandStands(d, s, a, h);
    } else if !a.Return? && !a.DrainDone? && !a.AuthorThrow? {
      TurnStands(d, s, a, h);
    }
  }

  // Once any step chained before the author's function returned has rejected, on any handle and
  // even when the author's code swallowed the rejection, no turn ever leads to a commit.
  lemma {:induction false} RejectedStepBlocksCommit<A, E>(
      d: Dialect<A, E>, files: seq<Option<string>>, front: seq<Action<E>>, back: seq<Action<E>>, h: nat)
    requires IsRun(d, Init(files), front + back) && IsRun(d, Init(files), front)
             && Doomed(Exec(d, Init(files), front), h)
    ensures Doomed(Exec(d, Init(files), front + back), h)
    ensures !PastDrain(Exec(d, Init(files), front + back).stage)
    decreases |back|
  {
    if back == [] {
      assert front + back == front;
    } else {
      var k := |back| - 1;
      assert (front + back)[..|front + back| - 1] == front + back[..k];
      RejectedStepBlocksCommit(d, files, front, back[..k], h);
      RunKeepsDrain(d, files, front + back[..k]);
      StaysDoomed(d, Exec(d, Init(files), front + back[..k]), back[k], h);
    }
    RunKeepsDrain(d, files, front + back);
    assert DrainOk(Exec(d, Init(files), front + back), h);
  }

  lemma KeepsFiles<A, E>(d: Dialect<A, E>, s: State<A, E>, a: Action<E>)
    requires Enabled(s, a)
    ensures Apply(d, s, a).initial == s.initial
    ensures |Apply(d, s, a).handles| == |s.handles| && |Apply(d, s, a).tree| == |s.tree|
  {
  }

  lemma {:induction false} RunKeepsFiles<A, E>(d: Dialect<A, E>, files: seq<Option<string>>, actions: seq<Action<E>>)
    requires IsRun(d, Init(files), actions)
    ensures var s := Exec(d, Init(files), actions);
            s.initial == files && |s.handles| == |s.tree| == |files|
    decreases |actions|
  {
    if actions != [] {
      var front := actions[..|actions| - 1];
      RunKeepsFiles(d, files, front);
      KeepsFiles(d, Exec(d, Init(files), front), actions[|actions| - 1]);
    }
  }

  // ---------------------------------------------------------------- the poison flag

  lemma PoisonSame<A, E>(s: State<A, E>, s': State<A, E>)
    requires Poison(s) && s'.failure == s.failure && s'.failures == s.failures && s'.lost == s.lost
             && |s'.handles| == |s.handles|
    requires forall h :: 0 <= h < |s.handles| ==> s'.handles[h].rejected == s.handles[h].rejected
    ensures Poison(s')
  {
    if s.failure.Some? {
      var h :| 0 <= h < |s.handles| && s.handles[h].rejected.Some?;
      assert s'.handles[h].rejected.Some?;
    }
  }

  lemma PoisonFail<A, E>(s: State<A, E>, h: nat, reason: string)
    requires Poison(s.(lost := {})) && h < |s.handles|
    ensures Poison(Fail(s, h, reason))
  {
    assert Fail(s, h, reason).handles[h].rejected.Some?;
  }

  // A step begun in a poisoned session is rejected with the first reason.
  lemma PoisonBegin<A, E>(d: Dialect<A, E>, s: State<A, E>, h: nat)
    requires Poison(s) && Enabled(s, Begin(h))
    ensures Poison(ApplyBegin(d, s, h))
  {
    if s.failure.Some? {
      assert ApplyBegin(d, s, h).handles[h].rejected.Some?;
    }
  }

  lemma KeepsPoison<A, E>(d: Dialect<A, E>, s: State<A, E>, a: Action<E>)
    requires Poison(s) && Enabled(s, a)
    ensures Poison(Apply(d, s, a))
  {
    match a {
      case Begin(h) => PoisonBegin(d, s, h);
      case Throw(h, reason) =>
        PoisonUnlost(s);
        PoisonFail(s, h, reason);
      case Finish(h) => PoisonFinish(d, s, h);
      case Land => PoisonLand(d, s);
      case LandFails(reason, landed) => PoisonLandFails(s, reason, landed);
      case _ => PoisonQuiet(d, s, a);
    }
  }

  // The turns in which nothing can reject.
  lemma PoisonQuiet<A, E>(d: Dialect<A, E>, s: State<A, E>, a: Action<E>)
    requires Poison(s) && Enabled(s, a)
    requires !a.Begin? && !a.Throw? && !a.Finish? && !a.Land? && !a.LandFails?
    ensures Poison(Apply(d, s, a))
  {
    if a.DrainDone? || a.Return? || a.AuthorThrow? { PoisonSame(s, Apply(d, s, a)); } else { PoisonTurn(d, s, a); }
  }

  lemma PoisonTurn<A, E>(d: Dialect<A, E>, s: State<A, E>, a: Action<E>)
    requires Poison(s) && Enabled(s, a)
    requires a.Chain? || a.IssueRead? || a.Edit? || a.Serialize? || a.Settle? || a.SettleFails?
    ensures Poison(Apply(d, s, a))
  {
    PoisonSame(s, Apply(d, s, a));
  }

  lemma PoisonFinish<A, E>(d: Dialect<A, E>, s: State<A, E>, h: nat)
    requires Poison(s) && Enabled(s, Finish(h))
    ensures Poison(Apply(d, s, Finish(h)))
  {
    if CurrentStep(s, h).Op? {
      PoisonSame(s, ApplyGate(d, s, h));
    } else {
      PoisonUnlost(s);
      PoisonFail(s, h, QUERY_WROTE);
      PoisonSame(s, Put(s, h, s.handles[h].(pc := s.handles[h].pc + 1, phase := Idle)));
    }
  }

  lemma PoisonLandFails<A, E>(s: State<A, E>, reason: string, landed: nat)
    requires Poison(s) && Enabled(s, LandFails(reason, landed))
    ensures Poison(ApplyLandFails(s, reason, landed))
  {
    if OwnerOf(s.queue[0]).Some? {
      var mid := if s.queue[0].EmitRequest? then Refuse(s, landed) else Dequeue(s);
      PoisonSame(s, mid.(lost := s.lost));
      PoisonUnlost(mid.(lost := s.lost));
      assert mid.(lost := s.lost).(lost := {}) == mid.(lost := {});
      PoisonFail(mid, OwnerOf(s.queue[0]).value, reason);
    } else {
      PoisonSame(s, ApplyLandFails(s, reason, landed));
    }
  }

  lemma PoisonUnlost<A, E>(s: State<A, E>)
    requires Poison(s)
    ensures Poison(s.(lost := {}))
  {
    if s.failure.Some? {
      var h :| 0 <= h < |s.handles| && s.handles[h].rejected.Some?;
      assert s.(lost := {}).handles[h].rejected.Some?;
    }
  }

  lemma PoisonLand<A, E>(d: Dialect<A, E>, s: State<A, E>)
    requires Poison(s) && Enabled(s, Land)
    ensures Poison(ApplyLand(d, s))
  {
    var mid := Dequeue(s);
    PoisonSame(s, mid);
    if s.queue[0].ReadRequest? {
      var h := s.queue[0].h;
      PoisonUnlost(mid);
      PoisonFail(mid, h, MISSING);
      PoisonFail(mid, h, UNPARSEABLE);
      if ApplyLand(d, s).failures == s.failures { PoisonSame(s, ApplyLand(d, s)); }
    } else {
      PoisonSame(s, ApplyLand(d, s));
    }
  }

  lemma {:induction false} RunKeepsPoison<A, E>(d: Dialect<A, E>, files: seq<Option<string>>, actions: seq<Action<E>>)
    requires IsRun(d, Init(files), actions)
    ensures Poison(Exec(d, Init(files), actions))
    decreases |actions|
  {
    if actions != [] {
      var front := actions[..|actions| - 1];
      RunKeepsPoison(d, files, front);
      KeepsPoison(d, Exec(d, Init(files), front), actions[|actions| - 1]);
    }
  }

  // ---------------------------------------------------------------- nothing chained late

  // A run in which no step is chained on handle `h` once the author's function has returned.
  ghost predicate IsPromptRun<A, E>(d: Dialect<A, E>, s: State<A, E>, actions: seq<Action<E>>, h: nat)
    decreases |actions|
  {
    IsRun(d, s, actions) &&
    (actions == [] ||
     (IsPromptRun(d, s, actions[..|actions| - 1], h) &&
      Prompt(Exec(d, s, actions[..|actions| - 1]), actions[|actions| - 1], h)))
  }

  ghost predicate SameChain<A, E>(x: Handle<A, E>, x': Handle<A, E>) {
    x'.chain == x.chain && x'.drainTo == x.drainTo
  }

  lemma TurnKeepsChains<A, E>(d: Dialect<A, E>, s: State<A, E>, a: Action<E>, h: nat)
    requires Enabled(s, a) && h < |s.handles| && !(a.Chain? && a.h == h) && !a.Return? && !a.Land? && !a.LandFails?
    ensures |Apply(d, s, a).handles| == |s.handles| && SameChain(s.handles[h], Apply(d, s, a).handles[h])
  {
  }

  lemma LandKeepsChains<A, E>(d: Dialect<A, E>, s: State<A, E>, a: Action<E>, h: nat)
    requires Enabled(s, a) && h < |s.handles| && (a.Land? || a.LandFails?)
    ensures |Apply(d, s, a).handles| == |s.handles| && SameChain(s.handles[h], Apply(d, s, a).handles[h])
  {
  }

  lemma LandMovesStage<A, E>(d: Dialect<A, E>, s: State<A, E>, a: Action<E>)
    requires DrainInv(s) && Enabled(s, a) && (a.Land? || a.LandFails?)
    ensures Apply(d, s, a).stage == s.stage || PastDrain(s.stage)
  {
    HeadFits(s);
  }

  lemma KeepsMark<A, E>(d: Dialect<A, E>, s: State<A, E>, a: Action<E>, h: nat)
    requires DrainInv(s) && h < |s.handles| && Marked(s, h) && Enabled(s, a) && Prompt(s, a, h)
    ensures Marked(Apply(d, s, a), h) && |Apply(d, s, a).handles| == |s.handles|
  {
    if a.Land? || a.LandFails? {
      LandMovesStage(d, s, a);
      LandKeepsChains(d, s, a, h);
    } else if !(a.Chain? && a.h == h) && !a.Return? {
      TurnKeepsChains(d, s, a, h);
    }
  }

  lemma {:induction false} PromptMark<A, E>(
      d: Dialect<A, E>, files: seq<Option<string>>, actions: seq<Action<E>>, h: nat)
    requires IsPromptRun(d, Init(files), actions, h) && h < |files|
    ensures h < |Exec(d, Init(files), actions).handles| == |files| && Marked(Exec(d, Init(files), actions), h)
    decreases |actions|
  {
    if actions != [] {
      var front := actions[..|actions| - 1];
      PromptMark(d, files, front, h);
      RunKeepsDrain(d, files, front);
      KeepsMark(d, Exec(d, Init(files), front), actions[|actions| - 1], h);
    }
  }

  // In a run past its drain a handle on which nothing was chained late has finished every step.
  lemma PromptHandleIsFinished<A, E>(d: Dialect<A, E>, files: seq<Option<string>>, actions: seq<Action<E>>, h: nat)
    requires IsPromptRun(d, Init(files), actions, h) && h < |files|
    requires PastDrain(Exec(d, Init(files), actions).stage)
    ensures h < |Exec(d, Init(files), actions).handles| && Finished(Exec(d, Init(files), actions).handles[h])
  {
    PromptMark(d, files, actions, h);
    RunKeepsDrain(d, files, actions);
    assert DrainOk(Exec(d, Init(files), actions), h);
  }

  // When nothing at all is chained late, any failing step keeps the run from its commit, so a
  // committed run has had no batch refused.
  lemma FailureBlocksCommit<A, E>(d: Dialect<A, E>, files: seq<Option<string>>, actions: seq<Action<E>>)
    requires IsRun(d, Init(files), actions)
    requires forall h: nat :: h < |files| ==> IsPromptRun(d, Init(files), actions, h)
    ensures var s := Exec(d, Init(files), actions);
            PastDrain(s.stage) ==> s.failures == [] && s.lost == {}
  {
    var s := Exec(d, Init(files), actions);
    RunKeepsPoison(d, files, actions);
    if PastDrain(s.stage) && s.failure.Some? {
      var h :| 0 <= h < |s.handles| && s.handles[h].rejected.Some?;
      RunKeepsFiles(d, files, actions);
      PromptHandleIsFinished(d, files, actions, h);
    }
  }
}

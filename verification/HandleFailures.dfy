// What a failure leaves standing: after the first one no step begins, a query that changed the
// print has failed, and a refused flush or commit ends the run discarded. Said on the fields of
// the states a run goes through.
module HandleFailures {
  import opened Prelude
  import opened HandleMachine
  import opened HandleInvariant
  import opened HandleDrain

  // ---------------------------------------------------------------- runs in two parts

  // A run's last turn.
  lemma Unroll<A, E>(d: Dialect<A, E>, s: State<A, E>, front: seq<Action<E>>, back: seq<Action<E>>)
    requires back != [] && IsRun(d, s, front + back)
    ensures front + back[..|back| - 1] == (front + back)[..|front + back| - 1]
    ensures IsRun(d, s, front + back[..|back| - 1])
    ensures Enabled(Exec(d, s, front + back[..|back| - 1]), back[|back| - 1])
    ensures Exec(d, s, front + back) == Apply(d, Exec(d, s, front + back[..|back| - 1]), back[|back| - 1])
  {
    assert front + back[..|back| - 1] == (front + back)[..|front + back| - 1];
  }

  lemma {:induction false} FrontIsRun<A, E>(
      d: Dialect<A, E>, s: State<A, E>, front: seq<Action<E>>, back: seq<Action<E>>)
    requires IsRun(d, s, front + back)
    ensures IsRun(d, s, front)
    decreases |back|
  {
    if back == [] {
      assert front + back == front;
    } else {
      Unroll(d, s, front, back);
      FrontIsRun(d, s, front, back[..|back| - 1]);
    }
  }

  lemma {:induction false} FailuresOnlyGrow<A, E>(
      d: Dialect<A, E>, s: State<A, E>, front: seq<Action<E>>, back: seq<Action<E>>)
    requires IsRun(d, s, front) && IsRun(d, s, front + back)
    ensures Exec(d, s, front).failures <= Exec(d, s, front + back).failures
    decreases |back|
  {
    if back == [] {
      assert front + back == front;
    } else {
      Unroll(d, s, front, back);
      FailuresOnlyGrow(d, s, front, back[..|back| - 1]);
      FailuresGrow(d, Exec(d, s, front + back[..|back| - 1]), back[|back| - 1]);
    }
  }

  lemma FailuresGrow<A, E>(d: Dialect<A, E>, s: State<A, E>, a: Action<E>)
    requires Enabled(s, a)
    ensures s.failures <= Apply(d, s, a).failures
  {
  }

  // ---------------------------------------------------------------- after the first failure

  // Everything but handle `h`'s rejection is as it was.
  ghost predicate OnlyRejects<A, E>(s: State<A, E>, s': State<A, E>, h: nat, reason: string) {
    && |s'.handles| == |s.handles| && h < |s.handles|
    && (forall g :: 0 <= g < |s.handles| && g != h ==> s'.handles[g] == s.handles[g])
    && s.handles[h].phase.Idle? && s'.handles[h] == s.handles[h].(rejected := Some(reason))
    && s'.queue == s.queue && s'.onWire == s.onWire && s'.pending == s.pending && s'.dirs == s.dirs
    && s'.tree == s.tree && s'.answers == s.answers && s'.failures == s.failures && s'.stage == s.stage
  }

  // In every run, a step begun after any step of any handle has failed is not attempted: it
  // rejects with the reason of the first failure, and nothing else happens.
  lemma PoisonedStepIsNotAttempted<A, E>(d: Dialect<A, E>, files: seq<Option<string>>, front: seq<Action<E>>, h: nat)
    requires IsRun(d, Init(files), front) && Exec(d, Init(files), front).failures != []
    requires Enabled(Exec(d, Init(files), front), Begin(h))
    ensures var s := Exec(d, Init(files), front);
            OnlyRejects(s, Apply(d, s, Begin(h)), h, s.failures[0])
  {
    RunKeepsPoison(d, files, front);
  }

  // What one turn does to handle `h` once a step has failed: a step not begun stays so, the step
  // under way may end, no other begins.
  ghost predicate HeldBack<A, E>(s: State<A, E>, s': State<A, E>, h: nat) {
    && h < |s.handles| == |s'.handles| && s.answers <= s'.answers
    && var x, x' := s.handles[h], s'.handles[h];
    && (x.phase.Idle? ==> x'.phase.Idle? && x'.pc == x.pc && x'.live == x.live && x'.applied == x.applied
                          && x'.open == x.open && x'.last == x.last)
    && (x'.pc == x.pc || (x'.pc == x.pc + 1 && x'.phase.Idle?))
    && (forall i :: |s.answers| <= i < |s'.answers| && s'.answers[i].h == h ==>
          !x.phase.Idle? && s'.answers[i].position == x.pc && x'.pc == x.pc + 1)
  }

  lemma TurnHoldsBack<A, E>(d: Dialect<A, E>, s: State<A, E>, a: Action<E>, h: nat)
    requires DrainInv(s) && s.failure.Some? && Enabled(s, a) && h < |s.handles|
    ensures HeldBack(s, Apply(d, s, a), h)
  {
    match a {
      case Land => LandHoldsBack(d, s, a, h);
      case LandFails(_, _) => LandHoldsBack(d, s, a, h);
      case Finish(_) => FinishHoldsBack(d, s, a, h);
      case _ => RestHoldsBack(d, s, a, h);
    }
  }

  lemma LandHoldsBack<A, E>(d: Dialect<A, E>, s: State<A, E>, a: Action<E>, h: nat)
    requires DrainInv(s) && s.failure.Some? && Enabled(s, a) && h < |s.handles| && (a.Land? || a.LandFails?)
    ensures HeldBack(s, Apply(d, s, a), h)
  {
    HeadFits(s);
  }

  lemma FinishHoldsBack<A, E>(d: Dialect<A, E>, s: State<A, E>, a: Action<E>, h: nat)
    requires s.failure.Some? && Enabled(s, a) && h < |s.handles| && a.Finish?
    ensures HeldBack(s, Apply(d, s, a), h)
  {
  }

  lemma RestHoldsBack<A, E>(d: Dialect<A, E>, s: State<A, E>, a: Action<E>, h: nat)
    requires s.failure.Some? && Enabled(s, a) && h < |s.handles| && !a.Land? && !a.LandFails? && !a.Finish?
    ensures HeldBack(s, Apply(d, s, a), h)
  {
  }

  // From the first failure on, in every continuation of every run: a handle between two steps
  // stays there, with its AST, its edits and its directive as they are and no read answered, and
  // on any other handle at most the step under way then ends, and only its read is answered.
  lemma {:induction false} NothingBeginsAfterAFailure<A, E>(
      d: Dialect<A, E>, files: seq<Option<string>>, front: seq<Action<E>>, back: seq<Action<E>>, h: nat)
    requires IsRun(d, Init(files), front) && IsRun(d, Init(files), front + back)
    requires Exec(d, Init(files), front).failures != [] && h < |files|
    ensures HeldBack(Exec(d, Init(files), front), Exec(d, Init(files), front + back), h)
    decreases |back|
  {
    var s := Exec(d, Init(files), front);
    RunKeepsFiles(d, files, front);
    if back == [] {
      assert front + back == front;
    } else {
      Unroll(d, Init(files), front, back);
      var upto, a := front + back[..|back| - 1], back[|back| - 1];
      var mid := Exec(d, Init(files), upto);
      NothingBeginsAfterAFailure(d, files, front, back[..|back| - 1], h);
      FailuresOnlyGrow(d, Init(files), front, back[..|back| - 1]);
      RunKeepsPoison(d, files, upto);
      RunKeepsDrain(d, files, upto);
      TurnHoldsBack(d, mid, a, h);
      HeldBackOn(s, mid, Apply(d, mid, a), h);
    }
  }

  lemma HeldBackOn<A, E>(s: State<A, E>, mid: State<A, E>, s': State<A, E>, h: nat)
    requires HeldBack(s, mid, h) && HeldBack(mid, s', h)
    ensures HeldBack(s, s', h)
  {
    forall i | |s.answers| <= i < |s'.answers| && s'.answers[i].h == h
      ensures !s.handles[h].phase.Idle? && s'.answers[i].position == s.handles[h].pc
              && s'.handles[h].pc == s.handles[h].pc + 1
    {
      if i < |mid.answers| { assert mid.answers[i] == s'.answers[i]; }
    }
  }

  // ---------------------------------------------------------------- a query's print

  // The step of handle `h` with number `pc` can make its first edit.
  ghost predicate AtFirstEdit<A, E>(s: State<A, E>, h: nat, pc: nat) {
    && h < |s.handles| && s.handles[h].pc == pc && s.handles[h].phase.Working? && s.handles[h].phase.k == 0
    && s.handles[h].live.Some? && s.handles[h].rejected.None?
  }

  // A step that starts working has its AST, and has noted its print.
  ghost predicate Noted<A, E>(d: Dialect<A, E>, s: State<A, E>, h: nat) {
    h < |s.handles| &&
    var x := s.handles[h];
    x.phase.Working? ==>
      x.live.Some? && x.rejected.None? && (x.phase.k == 0 ==> x.phase.before == d.render(x.live.value))
  }

  // A step at work keeps its note until it ends.
  ghost predicate KeepsNote<A, E>(x: Handle<A, E>, x': Handle<A, E>) {
    x.phase.Working? ==>
      || x'.rejected.Some? || x'.pc > x.pc
      || (x'.pc == x.pc && x'.phase.Working? && x'.phase.before == x.phase.before && x'.phase.k >= x.phase.k)
  }

  ghost predicate NoteStands<A, E>(d: Dialect<A, E>, s: State<A, E>, s': State<A, E>, h: nat) {
    && h < |s.handles| == |s'.handles| && Noted(d, s', h)
    && KeepsNote(s.handles[h], s'.handles[h])
    && s'.handles[h].pc >= s.handles[h].pc
    && (s.handles[h].rejected.Some? ==> s'.handles[h].rejected.Some?)
  }

  lemma TurnKeepsNote<A, E>(d: Dialect<A, E>, s: State<A, E>, a: Action<E>, h: nat)
    requires DrainInv(s) && Noted(d, s, h) && Enabled(s, a)
    ensures NoteStands(d, s, Apply(d, s, a), h)
  {
    assert DrainOk(s, h);
    match a {
      case Land => LandKeepsNote(d, s, a, h);
      case LandFails(_, _) => LandKeepsNote(d, s, a, h);
      case Finish(_) => FinishKeepsNote(d, s, a, h);
      case _ => RestKeepsNote(d, s, a, h);
    }
  }

  lemma LandKeepsNote<A, E>(d: Dialect<A, E>, s: State<A, E>, a: Action<E>, h: nat)
    requires DrainInv(s) && Noted(d, s, h) && Enabled(s, a) && (a.Land? || a.LandFails?)
    ensures NoteStands(d, s, Apply(d, s, a), h)
  {
    HeadFits(s);
  }

  lemma FinishKeepsNote<A, E>(d: Dialect<A, E>, s: State<A, E>, a: Action<E>, h: nat)
    requires Noted(d, s, h) && Enabled(s, a) && a.Finish?
    ensures NoteStands(d, s, Apply(d, s, a), h)
  {
  }

  lemma RestKeepsNote<A, E>(d: Dialect<A, E>, s: State<A, E>, a: Action<E>, h: nat)
    requires DrainOkAt(s, h) && Noted(d, s, h) && Enabled(s, a) && !a.Land? && !a.LandFails? && !a.Finish?
    ensures NoteStands(d, s, Apply(d, s, a), h)
  {
  }

  ghost predicate DrainOkAt<A, E>(s: State<A, E>, h: nat) {
    h < |s.handles| && DrainOk(s, h)
  }

  lemma {:induction false} RunKeepsNote<A, E>(
      d: Dialect<A, E>, files: seq<Option<string>>, actions: seq<Action<E>>, h: nat)
    requires IsRun(d, Init(files), actions) && h < |files|
    ensures Noted(d, Exec(d, Init(files), actions), h)
    decreases |actions|
  {
    if actions != [] {
      var front := actions[..|actions| - 1];
      RunKeepsNote(d, files, front, h);
      RunKeepsDrain(d, files, front);
      TurnKeepsNote(d, Exec(d, Init(files), front), actions[|actions| - 1], h);
    }
  }

  lemma {:induction false} NoteStaysOn<A, E>(
      d: Dialect<A, E>, files: seq<Option<string>>, front: seq<Action<E>>, back: seq<Action<E>>, h: nat)
    requires IsRun(d, Init(files), front) && IsRun(d, Init(files), front + back) && h < |files|
    ensures NoteStands(d, Exec(d, Init(files), front), Exec(d, Init(files), front + back), h)
    decreases |back|
  {
    RunKeepsFiles(d, files, front);
    RunKeepsNote(d, files, front, h);
    if back == [] {
      assert front + back == front;
    } else {
      Unroll(d, Init(files), front, back);
      var upto := front + back[..|back| - 1];
      NoteStaysOn(d, files, front, back[..|back| - 1], h);
      RunKeepsDrain(d, files, upto);
      TurnKeepsNote(d, Exec(d, Init(files), upto), back[|back| - 1], h);
    }
  }

  // A query that has run all its edits.
  ghost predicate QueryEnds<A, E>(s: State<A, E>, h: nat) {
    Enabled(s, Finish(h)) && CurrentStep(s, h).Query?
  }

  // In every run, a query ends rejected if and only if its handle's print at that moment is not
  // the print it had when the query could make its first edit. Otherwise the query is finished,
  // and either way it buffers no directive.
  lemma QueryMustNotChangeThePrint<A, E>(
      d: Dialect<A, E>, files: seq<Option<string>>, front: seq<Action<E>>, back: seq<Action<E>>, h: nat)
    requires IsRun(d, Init(files), front) && IsRun(d, Init(files), front + back)
    requires QueryEnds(Exec(d, Init(files), front + back), h)
    requires AtFirstEdit(Exec(d, Init(files), front), h, Exec(d, Init(files), front + back).handles[h].pc)
    ensures var began, s := Exec(d, Init(files), front), Exec(d, Init(files), front + back);
            var s' := Apply(d, s, Finish(h));
            && s.handles[h].live.Some? && |s'.handles| == |s.handles| && s'.dirs == s.dirs && s'.pending == s.pending
            && var same := d.render(s.handles[h].live.value) == d.render(began.handles[h].live.value);
            && (s'.handles[h].rejected.Some? <==> !same)
            && (same ==> s'.handles[h].pc == s.handles[h].pc + 1 && s'.failures == s.failures)
            && (!same ==> s'.handles[h].pc == s.handles[h].pc && s'.failures == s.failures + [QUERY_WROTE])
  {
    RunKeepsFiles(d, files, front);
    RunKeepsFiles(d, files, front + back);
    RunKeepsNote(d, files, front, h);
    NoteStaysOn(d, files, front, back, h);
  }

  // Every step at work has been at its first edit.
  lemma {:induction false} EveryStepHasAFirstEdit<A, E>(
      d: Dialect<A, E>, files: seq<Option<string>>, actions: seq<Action<E>>, h: nat) returns (n: nat)
    requires IsRun(d, Init(files), actions) && h < |files|
    requires h < |Exec(d, Init(files), actions).handles| && Exec(d, Init(files), actions).handles[h].phase.Working?
    ensures n <= |actions| && IsRun(d, Init(files), actions[..n])
    ensures AtFirstEdit(Exec(d, Init(files), actions[..n]), h, Exec(d, Init(files), actions).handles[h].pc)
    decreases |actions|
  {
    RunKeepsNote(d, files, actions, h);
    var s := Exec(d, Init(files), actions);
    if s.handles[h].phase.k == 0 {
      assert actions[..|actions|] == actions;
      n := |actions|;
    } else {
      var front := actions[..|actions| - 1];
      RunKeepsFiles(d, files, front);
      RunKeepsDrain(d, files, front);
      EditedBefore(d, Exec(d, Init(files), front), actions[|actions| - 1], h);
      n := EveryStepHasAFirstEdit(d, files, front, h);
      assert front[..n] == actions[..n];
    }
  }

  lemma EditedBefore<A, E>(d: Dialect<A, E>, s: State<A, E>, a: Action<E>, h: nat)
    requires DrainInv(s) && Enabled(s, a) && h < |s.handles| && h < |Apply(d, s, a).handles|
    requires Apply(d, s, a).handles[h].phase.Working? && Apply(d, s, a).handles[h].phase.k > 0
    ensures s.handles[h].phase.Working? && s.handles[h].pc == Apply(d, s, a).handles[h].pc
  {
    if a.Land? || a.LandFails? { HeadFits(s); }
  }

  // When nothing is chained late, a run in which a query ends on another print than it began with
  // never commits.
  lemma QueryThatWroteBlocksTheCommit<A, E>(
      d: Dialect<A, E>, files: seq<Option<string>>, front: seq<Action<E>>, middle: seq<Action<E>>, h: nat,
      back: seq<Action<E>>)
    requires IsRun(d, Init(files), front) && IsRun(d, Init(files), front + middle)
    requires IsRun(d, Init(files), front + middle + [Finish(h)])
    requires IsRun(d, Init(files), front + middle + [Finish(h)] + back)
    requires QueryEnds(Exec(d, Init(files), front + middle), h)
    requires AtFirstEdit(Exec(d, Init(files), front), h, Exec(d, Init(files), front + middle).handles[h].pc)
    requires var began, s := Exec(d, Init(files), front), Exec(d, Init(files), front + middle);
             s.handles[h].live.Some? && d.render(s.handles[h].live.value) != d.render(began.handles[h].live.value)
    requires forall g: nat :: g < |files| ==> IsPromptRun(d, Init(files), front + middle + [Finish(h)] + back, g)
    ensures !PastDrain(Exec(d, Init(files), front + middle + [Finish(h)] + back).stage)
  {
    QueryMustNotChangeThePrint(d, files, front, middle, h);
    var upto := front + middle;
    Unroll(d, Init(files), upto, [Finish(h)]);
    assert upto + [Finish(h)][..0] == upto;
    FailuresOnlyGrow(d, Init(files), upto + [Finish(h)], back);
    FailureBlocksCommit(d, files, upto + [Finish(h)] + back);
  }

  // ---------------------------------------------------------------- the verdict and its turn

  // The host has answered the run's commit.
  predicate CommitAnswered<A, E>(s: State<A, E>, a: Action<E>) {
    a.Land? && s.queue != [] && s.queue[0].CommitRequest?
  }

  // The reason with which this turn ends the run: the author's function threw, the drain found a
  // rejection, or the host refused the run's own flush or its commit.
  function EndingReason<A, E>(s: State<A, E>, a: Action<E>): Option<string> {
    match a
    case AuthorThrow(reason) => Some(reason)
    case DrainDone => DrainError(s, s.draining)
    case LandFails(reason, _) =>
      if s.queue != [] && (s.queue[0].CommitRequest? || (s.queue[0].EmitRequest? && s.queue[0].waiter.ByRun?))
      then Some(reason) else None
    case _ => None
  }

  predicate Over(stage: Stage) {
    stage.Committed? || stage.Discarded?
  }

  lemma VerdictTurn<A, E>(d: Dialect<A, E>, s: State<A, E>, a: Action<E>)
    requires DrainInv(s) && Enabled(s, a)
    ensures CommitAnswered(s, a) || EndingReason(s, a).Some? ==> !Over(s.stage)
    ensures Apply(d, s, a).stage.Committed? <==> s.stage.Committed? || CommitAnswered(s, a)
    ensures Apply(d, s, a).stage.Discarded? <==> s.stage.Discarded? || EndingReason(s, a).Some?
    ensures Over(s.stage) ==> Apply(d, s, a).stage == s.stage
    ensures EndingReason(s, a).Some? ==> Apply(d, s, a).stage.error == EndingReason(s, a).value
  {
    if s.queue != [] { HeadFits(s); }
    if Over(s.stage) { VerdictIsFinal(d, s, a); }
  }

  ghost predicate CommitsAt<A, E>(d: Dialect<A, E>, files: seq<Option<string>>, actions: seq<Action<E>>, n: nat) {
    n < |actions| && IsRun(d, Init(files), actions[..n])
    && CommitAnswered(Exec(d, Init(files), actions[..n]), actions[n])
  }

  ghost predicate EndsAt<A, E>(
      d: Dialect<A, E>, files: seq<Option<string>>, actions: seq<Action<E>>, n: nat, reason: string)
  {
    n < |actions| && IsRun(d, Init(files), actions[..n])
    && EndingReason(Exec(d, Init(files), actions[..n]), actions[n]) == Some(reason)
  }

  ghost predicate SomeTurnCommits<A, E>(d: Dialect<A, E>, files: seq<Option<string>>, actions: seq<Action<E>>) {
    exists n: nat :: CommitsAt(d, files, actions, n)
  }

  ghost predicate SomeTurnEnds<A, E>(
      d: Dialect<A, E>, files: seq<Option<string>>, actions: seq<Action<E>>, reason: string)
  {
    exists n: nat :: EndsAt(d, files, actions, n, reason)
  }

  lemma CommitsInFrontOrLast<A, E>(d: Dialect<A, E>, files: seq<Option<string>>, front: seq<Action<E>>, a: Action<E>)
    requires IsRun(d, Init(files), front)
    ensures SomeTurnCommits(d, files, front + [a]) <==>
              SomeTurnCommits(d, files, front) || CommitAnswered(Exec(d, Init(files), front), a)
  {
    var all := front + [a];
    assert all[..|front|] == front && all[|front|] == a;
    assert CommitsAt(d, files, all, |front|) <==> CommitAnswered(Exec(d, Init(files), front), a);
    forall n: nat | n < |front| ensures CommitsAt(d, files, all, n) <==> CommitsAt(d, files, front, n) {
      assert all[..n] == front[..n];
    }
  }

  lemma EndsInFrontOrLast<A, E>(
      d: Dialect<A, E>, files: seq<Option<string>>, front: seq<Action<E>>, a: Action<E>, reason: string)
    requires IsRun(d, Init(files), front)
    ensures SomeTurnEnds(d, files, front + [a], reason) <==>
              SomeTurnEnds(d, files, front, reason) || EndingReason(Exec(d, Init(files), front), a) == Some(reason)
  {
    var all := front + [a];
    assert all[..|front|] == front && all[|front|] == a;
    assert EndsAt(d, files, all, |front|, reason) <==> EndingReason(Exec(d, Init(files), front), a) == Some(reason);
    forall n: nat | n < |front| ensures EndsAt(d, files, all, n, reason) <==> EndsAt(d, files, front, n, reason) {
      assert all[..n] == front[..n];
    }
  }

  // A run is committed exactly when the host has answered its commit, and discarded with a reason
  // exactly when some turn ended it with that reason.
  lemma {:induction false} VerdictHasItsTurn<A, E>(
      d: Dialect<A, E>, files: seq<Option<string>>, actions: seq<Action<E>>, reason: string)
    requires IsRun(d, Init(files), actions)
    ensures var stage := Exec(d, Init(files), actions).stage;
            && (stage.Committed? <==> SomeTurnCommits(d, files, actions))
            && (stage.Discarded? && stage.error == reason <==> SomeTurnEnds(d, files, actions, reason))
    decreases |actions|
  {
    if actions != [] {
      var front, a := actions[..|actions| - 1], actions[|actions| - 1];
      var mid := Exec(d, Init(files), front);
      VerdictHasItsTurn(d, files, front, reason);
      RunKeepsDrain(d, files, front);
      VerdictTurn(d, mid, a);
      assert actions == front + [a];
      CommitsInFrontOrLast(d, files, front, a);
      EndsInFrontOrLast(d, files, front, a, reason);
    }
  }

  // No run has two turns that settle it.
  lemma OneTurnSettlesARun<A, E>(d: Dialect<A, E>, files: seq<Option<string>>, front: seq<Action<E>>, a: Action<E>)
    requires IsRun(d, Init(files), front) && Enabled(Exec(d, Init(files), front), a)
    requires CommitAnswered(Exec(d, Init(files), front), a) || EndingReason(Exec(d, Init(files), front), a).Some?
    ensures !SomeTurnCommits(d, files, front) && forall reason :: !SomeTurnEnds(d, files, front, reason)
  {
    RunKeepsDrain(d, files, front);
    VerdictTurn(d, Exec(d, Init(files), front), a);
    forall reason ensures !SomeTurnEnds(d, files, front, reason) && !SomeTurnCommits(d, files, front) {
      VerdictHasItsTurn(d, files, front, reason);
    }
    VerdictHasItsTurn(d, files, front, "");
  }
}

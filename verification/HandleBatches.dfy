// When a directive's text is fixed, and what goes into a batch.
module HandleBatches {
  import opened Prelude
  import opened HandleMachine
  import opened HandleInvariant
  import opened HandleFailures
  import opened HandleProofs

  // ---------------------------------------------------------------- a text once taken stays

  ghost predicate TextsStay<A, E>(s: State<A, E>, s': State<A, E>) {
    && |s.dirs| <= |s'.dirs|
    && (forall id :: 0 <= id < |s.dirs| ==> s'.dirs[id].owner == s.dirs[id].owner)
    && (forall id :: 0 <= id < |s.dirs| && s.dirs[id].content.Some? ==> s'.dirs[id].content == s.dirs[id].content)
  }

  lemma TurnKeepsTexts<A, E>(d: Dialect<A, E>, s: State<A, E>, a: Action<E>)
    requires Enabled(s, a)
    ensures TextsStay(s, Apply(d, s, a))
  {
    if a.Land? || a.LandFails? { LandKeepsTexts(d, s, a); } else { RestKeepsTexts(d, s, a); }
  }

  lemma LandKeepsTexts<A, E>(d: Dialect<A, E>, s: State<A, E>, a: Action<E>)
    requires Enabled(s, a) && (a.Land? || a.LandFails?)
    ensures Apply(d, s, a).dirs == s.dirs
  {
  }

  lemma RestKeepsTexts<A, E>(d: Dialect<A, E>, s: State<A, E>, a: Action<E>)
    requires Enabled(s, a) && !a.Land? && !a.LandFails?
    ensures TextsStay(s, Apply(d, s, a))
  {
  }

  // In every run a directive's text, once taken, is the same ever after, whoever takes it again.
  lemma {:induction false} TakenTextIsFinal<A, E>(
      d: Dialect<A, E>, files: seq<Option<string>>, front: seq<Action<E>>, back: seq<Action<E>>)
    requires IsRun(d, Init(files), front) && IsRun(d, Init(files), front + back)
    ensures TextsStay(Exec(d, Init(files), front), Exec(d, Init(files), front + back))
    decreases |back|
  {
    if back == [] {
      assert front + back == front;
    } else {
      Unroll(d, Init(files), front, back);
      TakenTextIsFinal(d, files, front, back[..|back| - 1]);
      TurnKeepsTexts(d, Exec(d, Init(files), front + back[..|back| - 1]), back[|back| - 1]);
    }
  }

  // Settling takes the open directive's text there and then, the handle's print unless it had been
  // taken before, and changes no other directive, no file and no request.
  lemma SettlingTakesTheText<A, E>(d: Dialect<A, E>, files: seq<Option<string>>, front: seq<Action<E>>, h: nat)
    requires IsRun(d, Init(files), front) && Enabled(Exec(d, Init(files), front), Settle(h))
    requires Exec(d, Init(files), front).handles[h].open.Some?
    ensures var s := Exec(d, Init(files), front);
            var s', id := Apply(d, s, Settle(h)), s.handles[h].open.value;
            && id < |s.dirs| == |s'.dirs| && s.handles[h].live.Some?
            && s'.tree == s.tree && s'.queue == s.queue && s'.pending == s.pending
            && s'.handles == s.handles[h := s.handles[h].(settlement := Settled)]
            && s'.dirs[id].content == (if s.dirs[id].content.Some? then s.dirs[id].content
                                       else Some(d.render(s.handles[h].live.value)))
            && forall k :: 0 <= k < |s.dirs| && k != id ==> s'.dirs[k] == s.dirs[k]
  {
    RunKeepsBase(d, files, front);
    var s := Exec(d, Init(files), front);
    assert HandleOk(s, h) && s.dirs[s.handles[h].open.value].owner == h;
  }

  // ---------------------------------------------------------------- no batch is empty

  ghost predicate BatchOk(r: Request) {
    r.EmitRequest? ==> r.ids != []
  }

  ghost predicate BatchesOk<A, E>(s: State<A, E>) {
    forall i :: 0 <= i < |s.queue| ==> BatchOk(s.queue[i])
  }

  lemma TurnKeepsBatches<A, E>(d: Dialect<A, E>, s: State<A, E>, a: Action<E>)
    requires BatchesOk(s) && Enabled(s, a)
    ensures BatchesOk(Apply(d, s, a))
  {
    if a.Land? || a.LandFails? { LandKeepsBatches(d, s, a); }
  }

  lemma LandKeepsBatches<A, E>(d: Dialect<A, E>, s: State<A, E>, a: Action<E>)
    requires BatchesOk(s) && Enabled(s, a) && (a.Land? || a.LandFails?)
    ensures BatchesOk(Apply(d, s, a))
  {
  }

  // In every run an empty buffer is never emitted.
  lemma {:induction false} NoBatchIsEmpty<A, E>(d: Dialect<A, E>, files: seq<Option<string>>, actions: seq<Action<E>>)
    requires IsRun(d, Init(files), actions)
    ensures BatchesOk(Exec(d, Init(files), actions))
    decreases |actions|
  {
    if actions != [] {
      var front := actions[..|actions| - 1];
      NoBatchIsEmpty(d, files, front);
      TurnKeepsBatches(d, Exec(d, Init(files), front), actions[|actions| - 1]);
    }
  }

  // Before a read, and before a handle's first op or query, the whole buffer goes out in its order,
  // as one batch behind everything sent before.
  lemma FlushTakesTheWholeBuffer<A, E>(d: Dialect<A, E>, s: State<A, E>, h: nat)
    requires Enabled(s, Begin(h)) && s.failure.None? && (CurrentStep(s, h).Read? || s.handles[h].live.None?)
    ensures var s' := Apply(d, s, Begin(h));
            && s'.pending == [] && s'.tree == s.tree && s'.dirs == s.dirs
            && s'.queue == s.queue + (if s.pending == [] then [] else [EmitRequest(s.pending, ByHandle(h))])
            && (s'.handles[h].phase.AwaitEmit? <==> s.pending != [])
  {
  }
}

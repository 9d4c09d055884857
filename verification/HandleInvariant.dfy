// What every reachable state of the run satisfies.
module HandleInvariant {
  import opened Prelude
  import opened HandleMachine

  function RequestIds(r: Request): seq<nat> {
    if r.EmitRequest? then r.ids else []
  }

  function QueueIds(queue: seq<Request>): seq<nat> {
    if queue == [] then [] else RequestIds(queue[0]) + QueueIds(queue[1..])
  }

  // Every directive that has not landed, oldest first.
  function Outstanding<A, E>(s: State<A, E>): seq<nat> {
    QueueIds(s.queue) + s.pending
  }

  ghost predicate Increasing(ids: seq<nat>) {
    forall i, j :: 0 <= i < j < |ids| ==> ids[i] < ids[j]
  }

  ghost predicate NoneOwned(dirs: seq<Dir>, ids: seq<nat>, h: nat) {
    forall id :: id in ids && id < |dirs| ==> dirs[id].owner != h
  }

  // The text of file `h` after `ids` land on `base`: the last one wins.
  ghost function Overlay<A, E>(d: Dialect<A, E>, dirs: seq<Dir>, live: Option<A>, h: nat, ids: seq<nat>,
                         base: Option<string>): Option<string> {
    if ids == [] then base
    else
      var id := ids[|ids| - 1];
      if id < |dirs| && dirs[id].owner == h then Some(TextOf(d, dirs[id], live))
      else Overlay(d, dirs, live, h, ids[..|ids| - 1], base)
  }

  // What file `h` will hold once everything outstanding has landed.
  ghost function Eventual<A, E>(d: Dialect<A, E>, s: State<A, E>, h: nat): Option<string>
    requires h < |s.handles| && h < |s.tree|
  {
    Overlay(d, s.dirs, s.handles[h].live, h, Outstanding(s), s.tree[h])
  }

  // ---------------------------------------------------------------- structure

  ghost predicate Shape<A, E>(s: State<A, E>) {
    && |s.tree| == |s.initial| == |s.handles|
    && Increasing(Outstanding(s))
    && (forall id :: id in Outstanding(s) ==> id < |s.dirs|)
    && (forall id :: 0 <= id < |s.dirs| ==> s.dirs[id].owner < |s.handles|)
    && (forall id :: 0 <= id < |s.dirs| && s.dirs[id].content.None? ==> id in Outstanding(s))
    && (s.onWire ==> s.queue != [])
    && (s.onWire ==> forall id :: id in RequestIds(s.queue[0]) ==> id < |s.dirs| && s.dirs[id].content.Some?)
  }

  ghost predicate Suspended(phase: Phase) {
    phase.AwaitEmit? || phase.FlushDone? || phase.AwaitRead?
  }

  ghost predicate HandleOk<A, E>(s: State<A, E>, h: nat)
    requires h < |s.handles|
  {
    var x := s.handles[h];
    && x.pc <= |x.chain|
    && (x.open.Some? ==> x.open.value < |s.dirs| && s.dirs[x.open.value].owner == h)
    && (forall id :: 0 <= id < |s.dirs| && s.dirs[id].owner == h ==>
          x.live.Some? && (x.open == Some(id) || s.dirs[id].content.Some?)
          && (x.open.Some? ==> id <= x.open.value))
    && (!x.phase.Idle? ==> x.rejected.None? && x.pc < |x.chain|)
    && (x.rejected.Some? ==> x.pc < |x.chain|)
    && (Suspended(x.phase) ==> NoneOwned(s.dirs, s.pending, h) && (x.chain[x.pc].Read? || x.live.None?))
    && (x.phase.Working? ==> x.live.Some? && !x.chain[x.pc].Read? && x.phase.k <= |x.chain[x.pc].edits|)
  }

  ghost predicate RequestOk<A, E>(s: State<A, E>, i: nat)
    requires i < |s.queue|
  {
    match s.queue[i]
    case EmitRequest(_, ByHandle(h)) => h < |s.handles| && s.handles[h].phase.AwaitEmit?
    case EmitRequest(_, ByRun) => s.stage.Flushing?
    case ReadRequest(h) =>
      && h < |s.handles| && s.handles[h].phase.AwaitRead?
      && NoneOwned(s.dirs, QueueIds(s.queue[i + 1..]) + s.pending, h)
    case CommitRequest => s.stage.Committing?
  }

  function OwnerOf(r: Request): Option<nat> {
    match r
    case EmitRequest(_, ByHandle(h)) => Some(h)
    case ReadRequest(h) => Some(h)
    case _ => None
  }

  ghost predicate OneRequestEach<A, E>(s: State<A, E>) {
    forall i, j :: 0 <= i < j < |s.queue| ==> OwnerOf(s.queue[i]).None? || OwnerOf(s.queue[i]) != OwnerOf(s.queue[j])
  }

  ghost predicate Structure<A, E>(s: State<A, E>) {
    && Shape(s)
    && (forall h :: 0 <= h < |s.handles| ==> HandleOk(s, h))
    && (forall i :: 0 <= i < |s.queue| ==> RequestOk(s, i))
    && OneRequestEach(s)
  }

  // ---------------------------------------------------------------- the poison flag

  ghost predicate Poison<A, E>(s: State<A, E>) {
    && (s.failure.None? <==> s.failures == [])
    && (s.failure.Some? ==> s.failure.value == s.failures[0])
    && (forall h :: 0 <= h < |s.handles| && s.handles[h].rejected.Some? ==> s.handles[h].rejected == s.failure)
    && (s.failure.Some? ==> exists h :: 0 <= h < |s.handles| && s.handles[h].rejected.Some?)
    && (s.lost != {} ==> s.failure.Some?)
  }

  // ---------------------------------------------------------------- the boundary

  ghost predicate Finished<A, E>(x: Handle<A, E>) {
    x.pc == |x.chain| && x.phase.Idle? && x.rejected.None?
  }

  ghost predicate PastDrain(stage: Stage) {
    stage.Flushing? || stage.Committing? || stage.Committed?
  }

  ghost predicate RequestFits<A, E>(s: State<A, E>, i: nat) {
    i < |s.queue| &&
    match s.queue[i]
    case EmitRequest(_, ByHandle(h)) => h < |s.handles| && s.handles[h].phase.AwaitEmit?
    case EmitRequest(_, ByRun) => s.stage.Flushing?
    case ReadRequest(h) => h < |s.handles| && s.handles[h].phase.AwaitRead?
    case CommitRequest => s.stage.Committing?
  }

  // A caller, the run included, has at most one request in the queue.
  ghost predicate QueueOk<A, E>(s: State<A, E>) {
    && (forall i: nat :: i < |s.queue| ==> RequestFits(s, i))
    && (forall i, j :: 0 <= i < j < |s.queue| ==> OwnerOf(s.queue[i]) != OwnerOf(s.queue[j]))
  }

  ghost predicate StepOk<A, E>(x: Handle<A, E>) {
    && x.pc <= |x.chain|
    && (x.rejected.Some? ==> x.pc < |x.chain|)
    && (!x.phase.Idle? ==> x.rejected.None? && x.pc < |x.chain|)
  }

  // Every step the drain waits for has succeeded, and so has the forced print.
  ghost predicate Through<A, E>(x: Handle<A, E>) {
    x.drainTo <= x.pc && !x.settlement.SettleRejected?
  }

  ghost predicate DrainOk<A, E>(s: State<A, E>, h: nat)
    requires h < |s.handles|
  {
    var x := s.handles[h];
    && StepOk(x)
    && (s.stage.Authoring? ==> x.settlement.NotSettled? && (x.chain != [] ==> h in s.registry))
    && (s.stage.Draining? ==>
          && (x.drainTo > 0 ==> h in s.draining)
          && (!x.settlement.NotSettled? ==> h in s.draining && x.drainTo <= x.pc))
    && (PastDrain(s.stage) ==> Through(x))
  }

  ghost predicate DrainInv<A, E>(s: State<A, E>) {
    && QueueOk(s)
    && (s.stage.Authoring? ==> s.draining == [])
    && (forall h :: 0 <= h < |s.handles| ==> DrainOk(s, h))
  }

  // What holds in every reachable state of every run, whatever the author does.
  ghost predicate Base<A, E>(s: State<A, E>) {
    Structure(s) && Poison(s) && DrainInv(s)
  }

  // ---------------------------------------------------------------- the text

  ghost predicate Clean<A, E>(s: State<A, E>) {
    s.failure.None? && !s.stage.Discarded?
  }

  // A handle that has not rejected and none of whose directives was refused.
  ghost predicate Sound<A, E>(s: State<A, E>, h: nat) {
    h < |s.handles| && s.handles[h].rejected.None? && h !in s.lost
  }

  // A step with an edit made and its end still to come.
  ghost predicate Dirty<A, E>(x: Handle<A, E>) {
    x.phase.Working? && x.pc < |x.chain| && !x.chain[x.pc].Read? && x.phase.k > 0
  }

  ghost function Progress<A, E>(x: Handle<A, E>): seq<E>
    requires x.pc <= |x.chain|
  {
    Edits(x.chain[..x.pc]) +
    (if x.phase.Working? && x.pc < |x.chain| && !x.chain[x.pc].Read? && x.phase.k <= |x.chain[x.pc].edits|
     then x.chain[x.pc].edits[..x.phase.k] else [])
  }

  // What the finished steps of handle `h` make of its file.
  ghost function Standing<A, E>(d: Dialect<A, E>, s: State<A, E>, h: nat): Option<string>
    requires h < |s.handles| && h < |s.initial| && s.handles[h].live.Some? && s.handles[h].pc <= |s.handles[h].chain|
  {
    if HasOp(s.handles[h].chain[..s.handles[h].pc]) then Some(d.render(s.handles[h].live.value)) else s.initial[h]
  }

  ghost predicate TextOk<A, E>(d: Dialect<A, E>, s: State<A, E>, h: nat)
    requires h < |s.handles| && |s.tree| == |s.initial| == |s.handles|
  {
    var x := s.handles[h];
    && x.pc <= |x.chain|
    && (x.live.None? ==> Eventual(d, s, h) == s.initial[h] && !HasOp(x.chain[..x.pc])
                         && x.applied == [] && Edits(x.chain[..x.pc]) == [])
    && (x.live.Some? ==>
          && s.initial[h].Some? && d.parse(s.initial[h].value).Some?
          && x.applied == Progress(x)
          && x.live.value == ApplyAll(d, x.applied, d.parse(s.initial[h].value).value)
          && (x.open.None? ==> Eventual(d, s, h) == Some(x.last))
          && (x.open.Some? ==>
                && x.open.value < |s.dirs|
                && Eventual(d, s, h) == Some(TextOf(d, s.dirs[x.open.value], x.live))
                && HasOp(x.chain[..x.pc]))
          && (!Dirty(x) ==> Eventual(d, s, h) == Standing(d, s, h))
          && (Querying(x) && x.open.None? ==>
                Some(x.last) == if HasOp(x.chain[..x.pc]) then Some(x.phase.before) else s.initial[h]))
  }

  ghost predicate Querying<A, E>(x: Handle<A, E>) {
    x.phase.Working? && x.pc < |x.chain| && x.chain[x.pc].Query?
  }

  ghost predicate Text<A, E>(d: Dialect<A, E>, s: State<A, E>, h: nat) {
    && h < |s.handles| && |s.tree| == |s.initial| == |s.handles|
    && (Sound(s, h) && !s.stage.Discarded? ==> TextOk(d, s, h))
  }

  ghost predicate AnswerOk<A, E>(d: Dialect<A, E>, s: State<A, E>, log: ReadLog) {
    && log.h < |s.handles| && log.h < |s.initial| && log.position < |s.handles[log.h].chain|
    && s.handles[log.h].chain[log.position].Read?
    && log.text == WriteThrough(d, s.initial[log.h], s.handles[log.h].chain[..log.position])
  }

  // The answers to the reads of handle `h`.
  ghost predicate Answers<A, E>(d: Dialect<A, E>, s: State<A, E>, h: nat) {
    forall i :: 0 <= i < |s.answers| && s.answers[i].h == h && s.answers[i].intact ==> AnswerOk(d, s, s.answers[i])
  }

  ghost predicate Inv<A, E>(d: Dialect<A, E>, s: State<A, E>, h: nat) {
    Base(s) && Text(d, s, h) && Answers(d, s, h)
  }

  // ---------------------------------------------------------------- the premises, handle by handle

  // The open directive is still buffered although something already evaluated its getter,
  // to a text that is no longer the print.
  ghost predicate Stale<A, E>(d: Dialect<A, E>, s: State<A, E>, h: nat)
    requires h < |s.handles| && s.handles[h].live.Some?
  {
    var x := s.handles[h];
    && x.open.Some? && x.open.value in s.pending && x.open.value < |s.dirs|
    && s.dirs[x.open.value].content.Some?
    && s.dirs[x.open.value].content.value != d.render(x.live.value)
  }

  // The open directive has been serialized with a text that is no longer the print.
  ghost predicate MiddleWritten<A, E>(d: Dialect<A, E>, s: State<A, E>, h: nat)
    requires h < |s.handles|
  {
    var x := s.handles[h];
    && x.live.Some? && x.open.Some? && x.open.value < |s.dirs|
    && s.dirs[x.open.value].content.Some? && s.dirs[x.open.value].content.value != d.render(x.live.value)
  }

  // No op of handle `h` ends with its directive stale.
  ghost predicate OpKeeps<A, E>(d: Dialect<A, E>, s: State<A, E>, a: Action<E>, h: nat)
    requires Enabled(s, a)
  {
    a == Finish(h) && CurrentStep(s, h).Op? && !s.stage.Discarded? ==> !Stale(d, s, h)
  }

  // No query of handle `h` that passes its check has had a text of its middle written.
  ghost predicate QueryKeeps<A, E>(d: Dialect<A, E>, s: State<A, E>, a: Action<E>, h: nat)
    requires Enabled(s, a)
  {
    a == Finish(h) && CurrentStep(s, h).Query? && QueryPasses(d, s, h) && !s.stage.Discarded? ==>
      !MiddleWritten(d, s, h)
  }

  // No step is chained on handle `h` once the author's function has returned.
  ghost predicate Prompt<A, E>(s: State<A, E>, a: Action<E>, h: nat) {
    a.Chain? && a.h == h ==> s.stage.Authoring?
  }

  // The drain waits for all there is of a handle.
  ghost predicate Marked<A, E>(s: State<A, E>, h: nat) {
    s.stage.Draining? || PastDrain(s.stage) ==> h < |s.handles| && s.handles[h].drainTo == |s.handles[h].chain|
  }
}

// The run as a state machine: any number of dialect handles, the session buffer, the
// engine client's queue, the staged tree and the run boundary, stepped one await-free
// turn at a time.
//
// A turn of one handle may fall between any two turns of another. In particular an edit
// and the mutation gate after it are separate turns, and a batch that left the buffer is
// serialized and landed by later turns of its own.
module HandleMachine {
  import opened Prelude
  import opened MutationGate

  // What a dialect supplies. `edit` applies one named synchronous edit to an AST.
  datatype Dialect<!A, !E> = Dialect(parse: string -> Option<A>, render: A -> string, edit: (E, A) -> A)

  // One step chained onto a handle. An op's function may suspend, so its effect is a
  // sequence of edits, each applied in a turn of its own.
  datatype Step<E> = Op(edits: seq<E>) | Query(edits: seq<E>) | Read

  datatype Phase =
    | Idle
    | AwaitEmit
    | FlushDone
    | AwaitRead
    | Working(k: nat, before: string)

  datatype Settlement = NotSettled | Settled | SettleRejected(reason: string)

  datatype Handle<A, E> = Handle(
    chain: seq<Step<E>>,      // every step ever chained
    pc: nat,                  // steps before `pc` are finished
    phase: Phase,
    live: Option<A>,
    open: Option<nat>,        // the open directive
    last: string,             // the mutation gate's baseline
    rejected: Option<string>, // the tail's rejection
    drainTo: nat,             // the tail the run-boundary drain captured
    settlement: Settlement,
    applied: seq<E>)          // history: every edit made to the live AST

  datatype Dir = Dir(owner: nat, content: Option<string>)

  datatype Waiter = ByHandle(h: nat) | ByRun

  datatype Request = EmitRequest(ids: seq<nat>, waiter: Waiter) | ReadRequest(h: nat) | CommitRequest

  datatype Cause = AuthorThrew | DrainRejected | FlushRejected | CommitRejected

  datatype Stage =
    | Authoring
    | Draining
    | Flushing
    | Committing
    | Committed
    | Discarded(error: string, cause: Cause)

  // One answered `handle.read()`: the handle, the position of the read in its chain, the text,
  // and whether the run still stood and no batch of the handle's had been refused.
  datatype ReadLog = ReadLog(h: nat, position: nat, text: Option<string>, intact: bool)

  // Handle `h` writes the file `h`: each path has one writer.
  datatype State<A, E> = State(
    handles: seq<Handle<A, E>>,
    dirs: seq<Dir>,
    pending: seq<nat>,
    queue: seq<Request>,
    onWire: bool,             // the head of the queue has been serialized and written
    tree: seq<Option<string>>,
    initial: seq<Option<string>>,
    registry: seq<nat>,       // handles in the order of their first step
    draining: seq<nat>,       // the handles the drain took from the registry
    failure: Option<string>,  // the session's first-wins poison flag
    failures: seq<string>,    // history: the reason of every failing step, in time order
    answers: seq<ReadLog>,
    lost: set<nat>,           // history: the handles with a directive in a refused batch
    stage: Stage)

  datatype Action<E> =
    | Chain(h: nat, step: Step<E>)
    | Begin(h: nat)
    | IssueRead(h: nat)
    | Edit(h: nat)
    | Throw(h: nat, reason: string)
    | Finish(h: nat)
    | Serialize
    | Land
    | LandFails(reason: string, landed: nat)
    | Settle(h: nat)
    | SettleFails(h: nat, reason: string)
    | Return
    | AuthorThrow(reason: string)
    | DrainDone

  const MISSING := "does not exist"
  const UNPARSEABLE := "could not parse"
  const QUERY_WROTE := "a query must not change the file"

  // ---------------------------------------------------------------- the simple form

  function Edits<E>(steps: seq<Step<E>>): seq<E> {
    if steps == [] then []
    else
      var s := steps[|steps| - 1];
      Edits(steps[..|steps| - 1]) + (if s.Read? then [] else s.edits)
  }

  function ApplyAll<A, E>(d: Dialect<A, E>, edits: seq<E>, ast: A): A {
    if edits == [] then ast
    else d.edit(edits[|edits| - 1], ApplyAll(d, edits[..|edits| - 1], ast))
  }

  predicate HasOp<E>(steps: seq<Step<E>>) {
    steps != [] && (steps[|steps| - 1].Op? || HasOp(steps[..|steps| - 1]))
  }

  // The file as it stands when every op writes it back at once.
  function WriteThrough<A, E>(d: Dialect<A, E>, original: Option<string>, steps: seq<Step<E>>): Option<string> {
    if !HasOp(steps) || original.None? || d.parse(original.value).None? then original
    else Some(d.render(ApplyAll(d, Edits(steps), d.parse(original.value).value)))
  }

  // ---------------------------------------------------------------- the turns

  function Fresh<A, E>(): Handle<A, E> {
    Handle([], 0, Idle, None, None, "", None, 0, NotSettled, [])
  }

  function Init<A, E>(files: seq<Option<string>>): State<A, E> {
    State(seq(|files|, i => Fresh()), [], [], [], false, files, files, [], [], None, [], [], {}, Authoring)
  }

  function TextOf<A, E>(d: Dialect<A, E>, dir: Dir, live: Option<A>): string {
    match dir.content
    case Some(text) => text
    case None => if live.Some? then d.render(live.value) else ""
  }

  function LiveOf<A, E>(s: State<A, E>, h: nat): Option<A> {
    if h < |s.handles| then s.handles[h].live else None
  }

  function ContentAt<A, E>(s: State<A, E>, id: nat): Option<string> {
    if id < |s.dirs| then s.dirs[id].content else None
  }

  // The memoizing getter of each listed directive, evaluated now.
  function Resolve<A, E>(d: Dialect<A, E>, s: State<A, E>, ids: seq<nat>): seq<Dir> {
    seq(|s.dirs|, i requires 0 <= i < |s.dirs| =>
      if i in ids then s.dirs[i].(content := Some(TextOf(d, s.dirs[i], LiveOf(s, s.dirs[i].owner)))) else s.dirs[i])
  }

  // The engine applies the batch's modifies in array order.
  function WriteAll(tree: seq<Option<string>>, dirs: seq<Dir>, ids: seq<nat>): (r: seq<Option<string>>)
    ensures |r| == |tree|
  {
    if ids == [] then tree
    else
      var before := WriteAll(tree, dirs, ids[..|ids| - 1]);
      var id := ids[|ids| - 1];
      if id < |dirs| && dirs[id].owner < |tree| && dirs[id].content.Some?
      then before[dirs[id].owner := dirs[id].content]
      else before
  }

  function Put<A, E>(s: State<A, E>, h: nat, handle: Handle<A, E>): State<A, E>
    requires h < |s.handles|
  {
    s.(handles := s.handles[h := handle])
  }

  // A step's rejection: the first failing step of the session poisons it, and every
  // rejection carries that first reason.
  function Fail<A, E>(s: State<A, E>, h: nat, reason: string): State<A, E>
    requires h < |s.handles|
  {
    var flag := if s.failure.Some? then s.failure else Some(reason);
    Put(s, h, s.handles[h].(rejected := flag, phase := Idle)).(failure := flag, failures := s.failures + [reason])
  }

  // Session.read's first half: the global flush. An empty buffer emits nothing.
  function FlushFor<A, E>(s: State<A, E>, h: nat): State<A, E>
    requires h < |s.handles|
  {
    if s.pending == [] then Put(s, h, s.handles[h].(phase := FlushDone))
    else Put(s, h, s.handles[h].(phase := AwaitEmit)).(
           queue := s.queue + [EmitRequest(s.pending, ByHandle(h))], pending := [])
  }

  predicate Runnable<A, E>(s: State<A, E>, h: nat) {
    h < |s.handles| && s.handles[h].rejected.None? && s.handles[h].pc < |s.handles[h].chain|
  }

  function CurrentStep<A, E>(s: State<A, E>, h: nat): Step<E>
    requires Runnable(s, h)
  {
    s.handles[h].chain[s.handles[h].pc]
  }

  // Whether the tail the drain captured has rejected.
  predicate TailRejected<A, E>(handle: Handle<A, E>) {
    handle.rejected.Some? && handle.pc < handle.drainTo
  }

  // allSettled resolves once each captured settle() has: a rejected tail at once, any
  // other tail after its last step and the forced getter.
  predicate Drained<A, E>(s: State<A, E>) {
    forall h :: h in s.draining && h < |s.handles| ==>
      TailRejected(s.handles[h]) || !s.handles[h].settlement.NotSettled?
  }

  // The first rejection in registration order.
  function DrainError<A, E>(s: State<A, E>, order: seq<nat>): Option<string> {
    if order == [] then None
    else if order[0] < |s.handles| && TailRejected(s.handles[order[0]]) then s.handles[order[0]].rejected
    else if order[0] < |s.handles| && s.handles[order[0]].settlement.SettleRejected? then
      Some(s.handles[order[0]].settlement.reason)
    else DrainError(s, order[1..])
  }

  predicate Enabled<A, E>(s: State<A, E>, a: Action<E>) {
    match a
    case Chain(h, _) => h < |s.handles|
    case Begin(h) => Runnable(s, h) && s.handles[h].phase.Idle?
    case IssueRead(h) => Runnable(s, h) && s.handles[h].phase.FlushDone?
    case Edit(h) =>
      Runnable(s, h) && s.handles[h].phase.Working? && s.handles[h].live.Some? && !CurrentStep(s, h).Read?
      && s.handles[h].phase.k < |CurrentStep(s, h).edits|
    case Throw(h, _) => Runnable(s, h) && s.handles[h].phase.Working?
    case Finish(h) =>
      Runnable(s, h) && s.handles[h].phase.Working? && s.handles[h].live.Some? && !CurrentStep(s, h).Read?
      && s.handles[h].phase.k == |CurrentStep(s, h).edits|
    case Serialize => s.queue != [] && !s.onWire
    case Land => s.queue != [] && s.onWire && WaiterReady(s)
    case LandFails(_, landed) =>
      s.queue != [] && s.onWire && WaiterReady(s) && (s.queue[0].EmitRequest? ==> landed <= |s.queue[0].ids|)
    case Settle(h) => CanSettle(s, h)
    case SettleFails(h, _) => CanSettle(s, h)
    case Return => s.stage.Authoring?
    case AuthorThrow(_) => s.stage.Authoring?
    case DrainDone => s.stage.Draining? && Drained(s)
  }

  predicate CanSettle<A, E>(s: State<A, E>, h: nat) {
    && s.stage.Draining? && h in s.draining && h < |s.handles|
    && s.handles[h].drainTo <= s.handles[h].pc && s.handles[h].settlement.NotSettled?
  }

  // The caller awaiting the head of the queue.
  predicate WaiterReady<A, E>(s: State<A, E>)
    requires s.queue != []
  {
    match s.queue[0]
    case EmitRequest(_, ByHandle(h)) => h < |s.handles|
    case EmitRequest(_, ByRun) => true
    case ReadRequest(h) => Runnable(s, h)
    case CommitRequest => true
  }

  function Apply<A, E>(d: Dialect<A, E>, s: State<A, E>, a: Action<E>): State<A, E>
    requires Enabled(s, a)
  {
    match a
    case Chain(h, step) =>
      var s' := Put(s, h, s.handles[h].(chain := s.handles[h].chain + [step]));
      if h in s.registry || h in s.draining then s' else s'.(registry := s.registry + [h])
    case Begin(h) => ApplyBegin(d, s, h)
    case IssueRead(h) =>
      Put(s, h, s.handles[h].(phase := AwaitRead)).(queue := s.queue + [ReadRequest(h)])
    case Edit(h) =>
      var handle := s.handles[h];
      var e := CurrentStep(s, h).edits[handle.phase.k];
      Put(s, h, handle.(live := Some(d.edit(e, handle.live.value)), applied := handle.applied + [e],
                        phase := Working(handle.phase.k + 1, handle.phase.before)))
    case Throw(h, reason) => Fail(s, h, reason)
    case Finish(h) => if CurrentStep(s, h).Op? then ApplyGate(d, s, h) else ApplyQueryEnd(d, s, h)
    case Serialize =>
      (if s.queue[0].EmitRequest? then s.(dirs := Resolve(d, s, s.queue[0].ids)) else s).(onWire := true)
    case Land => ApplyLand(d, s)
    case LandFails(reason, landed) => ApplyLandFails(s, reason, landed)
    case Settle(h) =>
      var handle := s.handles[h];
      Put(s, h, handle.(settlement := Settled)).(
        dirs := if handle.open.Some? then Resolve(d, s, [handle.open.value]) else s.dirs)
    case SettleFails(h, reason) => Put(s, h, s.handles[h].(settlement := SettleRejected(reason)))
    case Return =>
      s.(stage := Draining, draining := s.registry, registry := [],
         handles := seq(|s.handles|, i requires 0 <= i < |s.handles| =>
           s.handles[i].(drainTo := |s.handles[i].chain|)))
    case AuthorThrow(reason) => s.(stage := Discarded(reason, AuthorThrew))
    case DrainDone => ApplyDrainDone(s)
  }

  function ApplyBegin<A, E>(d: Dialect<A, E>, s: State<A, E>, h: nat): State<A, E>
    requires Enabled(s, Begin(h))
  {
    var handle := s.handles[h];
    if s.failure.Some? then Put(s, h, handle.(rejected := s.failure))
    else if CurrentStep(s, h).Read? || handle.live.None? then FlushFor(s, h)
    else Put(s, h, handle.(phase := Working(0, d.render(handle.live.value))))
  }

  function ApplyGate<A, E>(d: Dialect<A, E>, s: State<A, E>, h: nat): State<A, E>
    requires Enabled(s, Finish(h))
  {
    var handle := s.handles[h];
    var printed := d.render(handle.live.value);
    var view := if handle.open.None? then NoOpen
                else Open(ContentAt(s, handle.open.value), handle.open.value in s.pending);
    var gate := Gate(view, handle.last, printed);
    var dirs := if gate.forces then Resolve(d, s, [handle.open.value]) else s.dirs;
    var open := if gate.registers then Some(|s.dirs|) else if gate.closes then None else handle.open;
    Put(s, h, handle.(open := open, last := gate.last, pc := handle.pc + 1, phase := Idle)).(
      dirs := if gate.registers then dirs + [Dir(h, None)] else dirs,
      pending := if gate.registers then s.pending + [|s.dirs|] else s.pending)
  }

  // The check at a query's end: the print is what it was at its start.
  predicate QueryPasses<A, E>(d: Dialect<A, E>, s: State<A, E>, h: nat)
    requires Enabled(s, Finish(h))
  {
    d.render(s.handles[h].live.value) == s.handles[h].phase.before
  }

  function ApplyQueryEnd<A, E>(d: Dialect<A, E>, s: State<A, E>, h: nat): State<A, E>
    requires Enabled(s, Finish(h))
  {
    var handle := s.handles[h];
    if QueryPasses(d, s, h) then Put(s, h, handle.(pc := handle.pc + 1, phase := Idle))
    else Fail(s, h, QUERY_WROTE)
  }

  function Dequeue<A, E>(s: State<A, E>): State<A, E>
    requires s.queue != []
  {
    s.(queue := s.queue[1..], onWire := false)
  }

  function ApplyLand<A, E>(d: Dialect<A, E>, s: State<A, E>): State<A, E>
    requires Enabled(s, Land)
  {
    match s.queue[0]
    case EmitRequest(ids, waiter) =>
      var s' := Dequeue(s).(tree := WriteAll(s.tree, s.dirs, ids));
      if waiter.ByHandle? then Put(s', waiter.h, s'.handles[waiter.h].(phase := FlushDone))
      else s'.(stage := Committing, queue := s'.queue + [CommitRequest])
    case ReadRequest(h) => ApplyReply(d, Dequeue(s), h, if h < |s.tree| then s.tree[h] else None)
    case CommitRequest => Dequeue(s).(stage := Committed)
  }

  // The reply to `read` ends a Read step; for any other step it seeds the live AST.
  function ApplyReply<A, E>(d: Dialect<A, E>, s: State<A, E>, h: nat, reply: Option<string>): State<A, E>
    requires Runnable(s, h)
  {
    var handle := s.handles[h];
    if CurrentStep(s, h).Read? then
      Put(s, h, handle.(pc := handle.pc + 1, phase := Idle)).(
        answers := s.answers + [ReadLog(h, handle.pc, reply, h !in s.lost && !s.stage.Discarded?)])
    else if reply.None? then Fail(s, h, MISSING)
    else
      var parsed := d.parse(reply.value);
      if parsed.None? then Fail(s, h, UNPARSEABLE)
      else Put(s, h, handle.(live := parsed, last := reply.value, phase := Working(0, d.render(parsed.value))))
  }

  // The handles with a directive in the batch.
  function Owners(dirs: seq<Dir>, ids: seq<nat>): set<nat> {
    set id | id in ids && id < |dirs| :: dirs[id].owner
  }

  // A refused batch leaves its first `landed` directives applied; the rest is lost.
  function Refuse<A, E>(s: State<A, E>, landed: nat): State<A, E>
    requires s.queue != [] && s.queue[0].EmitRequest? && landed <= |s.queue[0].ids|
  {
    Dequeue(s).(tree := WriteAll(s.tree, s.dirs, s.queue[0].ids[..landed]),
                lost := s.lost + Owners(s.dirs, s.queue[0].ids))
  }

  function ApplyLandFails<A, E>(s: State<A, E>, reason: string, landed: nat): State<A, E>
    requires Enabled(s, LandFails(reason, landed))
  {
    match s.queue[0]
    case EmitRequest(_, ByHandle(h)) => Fail(Refuse(s, landed), h, reason)
    case EmitRequest(_, ByRun) => Dequeue(s).(stage := Discarded(reason, FlushRejected))
    case ReadRequest(h) => Fail(Dequeue(s), h, reason)
    case CommitRequest => Dequeue(s).(stage := Discarded(reason, CommitRejected))
  }

  function ApplyDrainDone<A, E>(s: State<A, E>): State<A, E>
    requires Enabled(s, DrainDone)
  {
    var error := DrainError(s, s.draining);
    if error.Some? then s.(stage := Discarded(error.value, DrainRejected))
    else if s.pending == [] then s.(stage := Committing, queue := s.queue + [CommitRequest])
    else s.(stage := Flushing, queue := s.queue + [EmitRequest(s.pending, ByRun)], pending := [])
  }

  // ---------------------------------------------------------------- runs

  ghost predicate IsRun<A, E>(d: Dialect<A, E>, s: State<A, E>, actions: seq<Action<E>>)
    decreases |actions|, 0
  {
    actions == [] ||
    (IsRun(d, s, actions[..|actions| - 1]) &&
     Enabled(Exec(d, s, actions[..|actions| - 1]), actions[|actions| - 1]))
  }

  ghost function Exec<A, E>(d: Dialect<A, E>, s: State<A, E>, actions: seq<Action<E>>): State<A, E>
    requires IsRun(d, s, actions)
    decreases |actions|, 1
  {
    if actions == [] then s
    else Apply(d, Exec(d, s, actions[..|actions| - 1]), actions[|actions| - 1])
  }
}

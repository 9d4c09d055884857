// Each premise of the run theorems, shown to be needed by a whole run from the start that breaks
// it and commits something else than every op written through.
module HandleWitnesses {
  import opened Prelude
  import opened HandleMachine
  import opened HandleInvariant
  import opened HandlePremises
  import opened HandleDrain

  // The plainest dialect: the AST is the text, an edit replaces it.
  const Plain: Dialect<string, string> :=
    Dialect((text: string) => Some(text), (ast: string) => ast, (edit: string, ast: string) => edit)

  ghost predicate Leads<A, E>(d: Dialect<A, E>, s: State<A, E>, actions: seq<Action<E>>, s': State<A, E>) {
    IsRun(d, s, actions) && Exec(d, s, actions) == s'
  }

  lemma Then<A, E>(
      d: Dialect<A, E>, s: State<A, E>, actions: seq<Action<E>>, mid: State<A, E>, a: Action<E>, s': State<A, E>)
    requires Leads(d, s, actions, mid) && Enabled(mid, a) && Apply(d, mid, a) == s'
    ensures Leads(d, s, actions + [a], s')
  {
    assert (actions + [a])[..|actions|] == actions;
  }

  // Replacing one of two handles.
  lemma Updated(x: Handle<string, string>, y: Handle<string, string>, z: Handle<string, string>)
    ensures [x, y][0 := z] == [z, y] && [x, y][1 := z] == [x, z]
  {
  }

  type Run = seq<Action<string>>
  type Point = State<string, string>

  function Files(): seq<Option<string>> {
    [Some("a"), Some("z")]
  }

  function Start(): Point {
    Init(Files())
  }

  const One: Step<string> := Op(["b"])

  // Handle 0 has its AST and its op [b] under way; handle 1 has done nothing.
  function Working0(): Handle<string, string> {
    Handle([One], 0, Working(0, "a"), Some("a"), None, "a", None, 0, NotSettled, [])
  }

  function Seeded(): Point {
    Start().(handles := [Working0(), Fresh()], registry := [0])
  }

  lemma Seeding() returns (run: Run)
    ensures Leads(Plain, Start(), run, Seeded())
  {
    var s0 := Start();
    assert Leads(Plain, s0, [], s0);
    assert [] + [One] == [One];
    var x := Fresh<string, string>().(chain := [One]);
    var s1 := s0.(handles := [x, Fresh()], registry := [0]);
    Updated(Fresh(), Fresh(), x);
    Then(Plain, s0, [], s0, Chain(0, One), s1);
    run := [] + [Chain(0, One)];
    var s2 := s1.(handles := [x.(phase := FlushDone), Fresh()]);
    Updated(x, Fresh(), x.(phase := FlushDone));
    Then(Plain, s0, run, s1, Begin(0), s2);
    run := run + [Begin(0)];
    Updated(x.(phase := FlushDone), Fresh(), x.(phase := AwaitRead));
    var s3 := s2.(handles := [x.(phase := AwaitRead), Fresh()], queue := [ReadRequest(0)]);
    Then(Plain, s0, run, s2, IssueRead(0), s3);
    run := run + [IssueRead(0)];
    Then(Plain, s0, run, s3, Serialize, s3.(onWire := true));
    run := run + [Serialize];
    Updated(x.(phase := AwaitRead), Fresh(), Working0());
    Then(Plain, s0, run, s3.(onWire := true), Land, Seeded());
    run := run + [Land];
  }

  // Handle 0 has finished its op; its directive is buffered.
  function Done0(): Handle<string, string> {
    Handle([One], 1, Idle, Some("b"), Some(0), "a", None, 0, NotSettled, ["b"])
  }

  function Buffered(): Point {
    Seeded().(handles := [Done0(), Fresh()], dirs := [Dir(0, None)], pending := [0])
  }

  lemma Buffering() returns (run: Run)
    ensures Leads(Plain, Start(), run, Buffered())
  {
    run := Seeding();
    var edited := Working0().(live := Some("b"), applied := ["b"], phase := Working(1, "a"));
    var s1 := Seeded().(handles := [edited, Fresh()]);
    assert [] + ["b"] == ["b"];
    Updated(Working0(), Fresh(), edited);
    Then(Plain, Start(), run, Seeded(), Edit(0), s1);
    run := run + [Edit(0)];
    Updated(edited, Fresh(), Done0());
    Then(Plain, Start(), run, s1, Finish(0), Buffered());
    run := run + [Finish(0)];
  }

  lemma OneWritten(rest: Step<string>)
    requires rest == Op(["c"]) || rest == Query(["m", "b"])
    ensures WriteThrough(Plain, Some("a"), [One, rest]) == Some(if rest.Op? then "c" else "b")
    ensures WriteThrough(Plain, Some("a"), [One]) == Some("b")
  {
    assert [One, rest][..1] == [One] && [One][..0] == [];
    assert Edits([One]) == Edits([]) + ["b"] == ["b"];
    assert Edits([One, rest]) == ["b"] + rest.edits;
    assert HasOp([One]) && HasOp([One, rest]);
    var all := ["b"] + rest.edits;
    assert all[|all| - 1] == if rest.Op? then "c" else "b";
  }

  // ---------------------------------------------------------------- a query's middle

  // Handle 1, whose one step reads.
  function Reader(phase: Phase): Handle<string, string> {
    Fresh<string, string>().(chain := [Read], phase := phase)
  }

  const Asking: Step<string> := Query(["m", "b"])

  function Asked(k: nat, live: string, applied: seq<string>): Handle<string, string> {
    Handle([One, Asking], 1, Working(k, "b"), Some(live), Some(0), "a", None, 0, NotSettled, applied)
  }

  // Handle 0 is in the middle of its query, and handle 1 has read: the batch is on the wire.
  function MiddleOnWire(): Point {
    Buffered().(handles := [Asked(1, "m", ["b", "m"]), Fresh<string, string>().(chain := [Read], phase := AwaitEmit)],
                dirs := [Dir(0, Some("m"))], pending := [], queue := [EmitRequest([0], ByHandle(1))], onWire := true,
                registry := [0, 1])
  }

  // Handle 0 is in the middle of its query, its directive still buffered.
  function InTheMiddle(): Point {
    Buffered().(handles := [Asked(1, "m", ["b", "m"]), Fresh()])
  }

  lemma Asks() returns (run: Run)
    ensures Leads(Plain, Start(), run, InTheMiddle())
  {
    run := Buffering();
    var s0 := Start();
    assert [One] + [Asking] == [One, Asking];
    var s1 := Buffered().(handles := [Done0().(chain := [One, Asking]), Fresh()]);
    Updated(Done0(), Fresh(), Done0().(chain := [One, Asking]));
    Then(Plain, s0, run, Buffered(), Chain(0, Asking), s1);
    run := run + [Chain(0, Asking)];
    var s2 := s1.(handles := [Asked(0, "b", ["b"]), Fresh()]);
    Updated(Done0().(chain := [One, Asking]), Fresh(), Asked(0, "b", ["b"]));
    Then(Plain, s0, run, s1, Begin(0), s2);
    run := run + [Begin(0)];
    assert ["b"] + ["m"] == ["b", "m"];
    Updated(Asked(0, "b", ["b"]), Fresh(), Asked(1, "m", ["b", "m"]));
    Then(Plain, s0, run, s2, Edit(0), InTheMiddle());
    run := run + [Edit(0)];
  }

  lemma ToTheMiddle() returns (run: Run)
    ensures Leads(Plain, Start(), run, MiddleOnWire())
  {
    run := Asks();
    var s0, reader := Start(), Fresh<string, string>().(chain := [Read]);
    assert [] + [Step<string>.Read] == [Read] && [0] + [1] == [0, 1];
    var s4 := InTheMiddle().(handles := [Asked(1, "m", ["b", "m"]), reader], registry := [0, 1]);
    Updated(Asked(1, "m", ["b", "m"]), Fresh(), reader);
    Then(Plain, s0, run, InTheMiddle(), Chain(1, Read), s4);
    run := run + [Chain(1, Read)];
    var s5 := s4.(handles := [Asked(1, "m", ["b", "m"]), reader.(phase := AwaitEmit)], pending := [],
                  queue := [EmitRequest([0], ByHandle(1))]);
    Updated(Asked(1, "m", ["b", "m"]), reader, reader.(phase := AwaitEmit));
    Then(Plain, s0, run, s4, Begin(1), s5);
    run := run + [Begin(1)];
    assert Resolve(Plain, s5, [0]) == [Dir(0, Some("m"))];
    Then(Plain, s0, run, s5, Serialize, MiddleOnWire());
    run := run + [Serialize];
  }

  function Answered(): Handle<string, string> {
    Asked(2, "b", ["b", "m", "b"]).(pc := 2, phase := Idle)
  }

  // The query has passed and everything has landed.
  function MiddleLanded(): Point {
    MiddleOnWire().(handles := [Answered(), Handle([Read], 1, Idle, None, None, "", None, 0, NotSettled, [])],
                    queue := [], onWire := false, tree := [Some("m"), Some("z")],
                    answers := [ReadLog(1, 0, Some("z"), true)])
  }

  // The query has passed; the batch with its middle is still on the wire.
  function PassedOnWire(): Point {
    MiddleOnWire().(handles := [Answered(), Reader(AwaitEmit)])
  }

  lemma Passing() returns (run: Run)
    ensures Leads(Plain, Start(), run, PassedOnWire())
  {
    run := ToTheMiddle();
    var asked := Asked(2, "b", ["b", "m", "b"]);
    var s1 := MiddleOnWire().(handles := [asked, Reader(AwaitEmit)]);
    assert ["b", "m"] + ["b"] == ["b", "m", "b"];
    Updated(Asked(1, "m", ["b", "m"]), Reader(AwaitEmit), asked);
    Then(Plain, Start(), run, MiddleOnWire(), Edit(0), s1);
    run := run + [Edit(0)];
    Updated(asked, Reader(AwaitEmit), Answered());
    Then(Plain, Start(), run, s1, Finish(0), PassedOnWire());
    run := run + [Finish(0)];
  }

  lemma MiddleLands() returns (run: Run)
    ensures Leads(Plain, Start(), run, MiddleLanded())
  {
    run := Passing();
    var s0, s2 := Start(), PassedOnWire();
    assert [0][..0] == [] && WriteAll(s2.tree, s2.dirs, [0]) == [Some("m"), Some("z")];
    var s3 := s2.(
      handles := [Answered(), Reader(FlushDone)], queue := [], onWire := false, tree := [Some("m"), Some("z")]);
    Updated(Answered(), Reader(AwaitEmit), Reader(FlushDone));
    Then(Plain, s0, run, s2, Land, s3);
    run := ReaderReads(run + [Land], s3);
  }

  lemma ReaderReads(run: Run, s: Point) returns (whole: Run)
    requires Leads(Plain, Start(), run, s) && s.handles == [Answered(), Reader(FlushDone)]
    requires s == MiddleLanded().(handles := [Answered(), Reader(FlushDone)], answers := [])
    ensures Leads(Plain, Start(), whole, MiddleLanded())
  {
    var s0, s4 := Start(), s.(handles := [Answered(), Reader(AwaitRead)], queue := [ReadRequest(1)]);
    Updated(Answered(), Reader(FlushDone), Reader(AwaitRead));
    assert [] + [ReadRequest(1)] == [ReadRequest(1)];
    Then(Plain, s0, run, s, IssueRead(1), s4);
    whole := run + [IssueRead(1)];
    Then(Plain, s0, whole, s4, Serialize, s4.(onWire := true));
    whole := whole + [Serialize];
    Updated(Answered(), Reader(AwaitRead), Reader(Idle).(pc := 1));
    Then(Plain, s0, whole, s4.(onWire := true), Land, MiddleLanded());
    whole := whole + [Land];
  }

  // A state in which two idle handles with nothing outstanding have finished their steps.
  ghost predicate AllIdle(s: Point) {
    && |s.handles| == 2 && s.stage.Authoring? && s.registry == [0, 1] && s.failure.None?
    && s.pending == [] && s.queue == [] && !s.onWire
    && (forall h :: 0 <= h < 2 ==> IdleAt(s, h))
  }

  ghost predicate IdleAt(s: Point, h: nat) {
    && h < |s.handles| && Finished(s.handles[h]) && s.handles[h].settlement.NotSettled?
    && (s.handles[h].open.Some? ==> s.handles[h].open.value < |s.dirs| && s.dirs[s.handles[h].open.value].content.Some?)
  }

  // From there the run drains and commits, and no file changes any more.
  lemma Commits(run: Run, s: Point) returns (whole: Run)
    requires Leads(Plain, Start(), run, s) && AllIdle(s)
    ensures IsRun(Plain, Start(), whole)
    ensures var t := Exec(Plain, Start(), whole);
            && t.stage.Committed? && t.tree == s.tree && t.failures == s.failures && |t.handles| == 2
            && t.handles[0].chain == s.handles[0].chain
  {
    var s0 := Start();
    assert IdleAt(s, 0) && IdleAt(s, 1);
    var x, y := s.handles[0].(drainTo := s.handles[0].pc), s.handles[1].(drainTo := s.handles[1].pc);
    assert s.handles == [s.handles[0], s.handles[1]];
    var s1 := s.(handles := [x, y], stage := Draining, draining := [0, 1], registry := []);
    Then(Plain, s0, run, s, Return, s1);
    whole := run + [Return];
    var s2 := s1.(handles := [x.(settlement := Settled), y]);
    Updated(x, y, x.(settlement := Settled));
    if x.open.Some? { ResolvedAlready(s1, x.open.value); }
    Then(Plain, s0, whole, s1, Settle(0), s2);
    whole := whole + [Settle(0)];
    var s3 := s2.(handles := [x.(settlement := Settled), y.(settlement := Settled)]);
    Updated(x.(settlement := Settled), y, y.(settlement := Settled));
    if y.open.Some? { ResolvedAlready(s2, y.open.value); }
    Then(Plain, s0, whole, s2, Settle(1), s3);
    whole := whole + [Settle(1)];
    whole := Ends(whole, s3);
  }

  lemma ResolvedAlready(s: Point, id: nat)
    requires id < |s.dirs| && s.dirs[id].content.Some?
    ensures Resolve(Plain, s, [id]) == s.dirs
  {
  }

  lemma Ends(run: Run, s: Point) returns (whole: Run)
    requires Leads(Plain, Start(), run, s) && |s.handles| == 2 && s.stage.Draining? && s.draining == [0, 1]
    requires s.pending == [] && s.queue == [] && !s.onWire
    requires forall h :: 0 <= h < 2 ==> s.handles[h].settlement.Settled? && !TailRejected(s.handles[h])
    ensures IsRun(Plain, Start(), whole)
    ensures Exec(Plain, Start(), whole) == s.(stage := Committed)
  {
    var s0, s1 := Start(), s.(stage := Committing, queue := [CommitRequest]);
    FirstBlame(s, [0, 1]);
    assert [] + [CommitRequest] == [CommitRequest];
    Then(Plain, s0, run, s, DrainDone, s1);
    whole := CommitLands(s0, run + [DrainDone], s1);
  }

  // The commit is sent, and answered.
  lemma CommitLands(s0: Point, run: Run, s: Point) returns (whole: Run)
    requires Leads(Plain, s0, run, s) && s.stage.Committing? && s.queue == [CommitRequest] && !s.onWire
    ensures Leads(Plain, s0, whole, s.(stage := Committed, queue := []))
  {
    Then(Plain, s0, run, s, Serialize, s.(onWire := true));
    whole := run + [Serialize];
    Then(Plain, s0, whole, s.(onWire := true), Land, s.(stage := Committed, queue := []));
    whole := whole + [Land];
  }

  // A query that changed the print and changed it back has passed its check and the run commits:
  // the file holds the text of the middle, not what the ops come to.
  lemma CommittedMiddle() returns (run: Run)
    ensures IsRun(Plain, Start(), run)
    ensures var s := Exec(Plain, Start(), run);
            && s.stage.Committed? && s.failures == [] && |s.handles| == |s.tree| == 2
            && s.handles[0].chain == [One, Asking]
            && s.tree[0] == Some("m") && WriteThrough(Plain, Some("a"), s.handles[0].chain) == Some("b")
  {
    run := MiddleLands();
    assert IdleAt(MiddleLanded(), 0) && IdleAt(MiddleLanded(), 1);
    run := Commits(run, MiddleLanded());
    OneWritten(Asking);
  }

  // ---------------------------------------------------------------- measuring

  const Two: Step<string> := Op(["c"])

  function Second(k: nat, live: string, applied: seq<string>): Handle<string, string> {
    Handle([One, Two], 1, Working(k, "b"), Some(live), Some(0), "a", None, 0, NotSettled, applied)
  }

  // Handle 0's second op is under way and its directive still buffered.
  function Midway(): Point {
    Buffered().(handles := [Second(0, "b", ["b"]), Fresh()])
  }

  lemma ToMidway() returns (run: Run)
    ensures Leads(Plain, Start(), run, Midway())
  {
    run := Buffering();
    assert [One] + [Two] == [One, Two];
    var s1 := Buffered().(handles := [Done0().(chain := [One, Two]), Fresh()]);
    Updated(Done0(), Fresh(), Done0().(chain := [One, Two]));
    Then(Plain, Start(), run, Buffered(), Chain(0, Two), s1);
    run := run + [Chain(0, Two)];
    Updated(Done0().(chain := [One, Two]), Fresh(), Second(0, "b", ["b"]));
    Then(Plain, Start(), run, s1, Begin(0), Midway());
    run := run + [Begin(0)];
  }

  function Measured(): Point {
    Midway().(dirs := [Dir(0, Some("b"))])
  }

  function Overtaken(): Handle<string, string> {
    Second(1, "c", ["b", "c"]).(pc := 2, phase := Idle)
  }

  lemma FromMeasured() returns (run: Run)
    ensures Leads(Plain, Measured(), run, Measured().(handles := [Overtaken(), Fresh()]))
  {
    var s0 := Measured();
    assert Leads(Plain, s0, [], s0);
    assert ["b"] + ["c"] == ["b", "c"];
    var s1 := s0.(handles := [Second(1, "c", ["b", "c"]), Fresh()]);
    Updated(Second(0, "b", ["b"]), Fresh(), Second(1, "c", ["b", "c"]));
    Then(Plain, s0, [], s0, Edit(0), s1);
    run := [] + [Edit(0)];
    Updated(Second(1, "c", ["b", "c"]), Fresh(), Overtaken());
    Then(Plain, s0, run, s1, Finish(0), s0.(handles := [Overtaken(), Fresh()]));
    run := run + [Finish(0)];
  }

  // Between two ops of a handle the buffer is measured; the run goes on and commits. The file
  // holds the first op's print, the second op is lost.
  lemma CommittedMeasurement() returns (before: Run, behind: Run)
    ensures Leads(Plain, Start(), before, Midway()) && Measure(Plain, Midway()) == Measured()
    ensures IsRun(Plain, Measured(), behind)
    ensures var s := Exec(Plain, Measured(), behind);
            && s.stage.Committed? && s.failures == [] && |s.handles| == |s.tree| == 2
            && s.handles[0].chain == [One, Two]
            && s.tree[0] == Some("b") && WriteThrough(Plain, Some("a"), s.handles[0].chain) == Some("c")
  {
    before := ToMidway();
    behind := FromMeasured();
    assert Resolve(Plain, Midway(), [0]) == [Dir(0, Some("b"))];
    OneWritten(Two);
    var s0, s1 := Measured(), Measured().(handles := [Overtaken(), Fresh()]);
    var x, y := Overtaken().(drainTo := 2), Fresh<string, string>();
    var s2 := s1.(handles := [x, y], stage := Draining, draining := [0], registry := []);
    Then(Plain, s0, behind, s1, Return, s2);
    behind := behind + [Return];
    var s3 := s2.(handles := [x.(settlement := Settled), y]);
    Updated(x, y, x.(settlement := Settled));
    ResolvedAlready(s2, 0);
    Then(Plain, s0, behind, s2, Settle(0), s3);
    behind := behind + [Settle(0)];
    behind := Flushes(behind, s3);
  }

  lemma Flushes(run: Run, s: Point) returns (whole: Run)
    requires Leads(Plain, Measured(), run, s) && |s.handles| == 2 && s.stage.Draining? && s.draining == [0]
    requires s.pending == [0] && s.queue == [] && !s.onWire && s.dirs == [Dir(0, Some("b"))] && s.tree == Files()
    requires s.handles[0].settlement.Settled? && !TailRejected(s.handles[0])
    ensures IsRun(Plain, Measured(), whole)
    ensures Exec(Plain, Measured(), whole) == s.(stage := Committed, pending := [], tree := [Some("b"), Some("z")])
  {
    var s0, r := Measured(), EmitRequest([0], ByRun);
    FirstBlame(s, [0]);
    assert [] + [r] == [r];
    var s1 := s.(stage := Flushing, queue := [r], pending := []);
    Then(Plain, s0, run, s, DrainDone, s1);
    whole := BatchLands(run + [DrainDone], s1);
    whole := CommitLands(s0, whole,
        s.(stage := Committing, queue := [CommitRequest], pending := [], tree := [Some("b"), Some("z")]));
  }

  lemma BatchLands(run: Run, s: Point) returns (whole: Run)
    requires Leads(Plain, Measured(), run, s) && s.stage.Flushing? && s.queue == [EmitRequest([0], ByRun)] && !s.onWire
    requires s.dirs == [Dir(0, Some("b"))] && s.tree == Files()
    ensures Leads(Plain, Measured(), whole,
              s.(stage := Committing, queue := [CommitRequest], tree := [Some("b"), Some("z")]))
  {
    var s0 := Measured();
    ResolvedAlready(s, 0);
    Then(Plain, s0, run, s, Serialize, s.(onWire := true));
    whole := run + [Serialize];
    assert [0][..0] == [] && WriteAll(s.tree, s.dirs, [0]) == [Some("b"), Some("z")];
    assert [] + [CommitRequest] == [CommitRequest];
    Then(Plain, s0, whole, s.(onWire := true), Land,
        s.(stage := Committing, queue := [CommitRequest], tree := [Some("b"), Some("z")]));
    whole := whole + [Land];
  }

  // ---------------------------------------------------------------- a late step

  function Registered(): Handle<string, string> {
    Handle([Read], 1, Idle, None, None, "", None, 0, NotSettled, [])
  }

  function Waiting(): Point {
    Start().(handles := [Registered(), Fresh()], registry := [0], answers := [ReadLog(0, 0, Some("a"), true)])
  }

  lemma Registering() returns (run: Run)
    ensures Leads(Plain, Start(), run, Waiting())
  {
    var s0, x := Start(), Fresh<string, string>().(chain := [Read]);
    assert Leads(Plain, s0, [], s0);
    assert [] + [Step<string>.Read] == [Read];
    Updated(Fresh(), Fresh(), x);
    var s1 := s0.(handles := [x, Fresh()], registry := [0]);
    Then(Plain, s0, [], s0, Chain(0, Read), s1);
    run := [] + [Chain(0, Read)];
    Updated(x, Fresh(), x.(phase := FlushDone));
    var s2 := s1.(handles := [x.(phase := FlushDone), Fresh()]);
    Then(Plain, s0, run, s1, Begin(0), s2);
    run := run + [Begin(0)];
    Updated(x.(phase := FlushDone), Fresh(), x.(phase := AwaitRead));
    var s3 := s2.(handles := [x.(phase := AwaitRead), Fresh()], queue := [ReadRequest(0)]);
    Then(Plain, s0, run, s2, IssueRead(0), s3);
    run := run + [IssueRead(0)];
    Then(Plain, s0, run, s3, Serialize, s3.(onWire := true));
    run := run + [Serialize];
    Updated(x.(phase := AwaitRead), Fresh(), Registered());
    Then(Plain, s0, run, s3.(onWire := true), Land, Waiting());
    run := run + [Land];
  }

  function Late(phase: Phase): Handle<string, string> {
    Registered().(chain := [Read, One], drainTo := 1, settlement := Settled, phase := phase)
  }

  // A step chained on a drained handle once its settling has been awaited.
  function Drained0(phase: Phase, queue: seq<Request>): Point {
    Waiting().(handles := [Late(phase), Fresh()], stage := Draining, draining := [0], registry := [], queue := queue)
  }

  lemma ChainingLate() returns (run: Run)
    ensures Leads(Plain, Start(), run, Drained0(AwaitRead, [ReadRequest(0)]))
  {
    run := Registering();
    var s0, x := Start(), Registered().(drainTo := 1);
    var s1 := Waiting().(handles := [x, Fresh()], stage := Draining, draining := [0], registry := []);
    Then(Plain, s0, run, Waiting(), Return, s1);
    run := run + [Return];
    assert [Step<string>.Read] + [One] == [Read, One];
    var s2 := s1.(handles := [x.(settlement := Settled), Fresh()]);
    Updated(x, Fresh(), x.(settlement := Settled));
    Then(Plain, s0, run, s1, Settle(0), s2);
    run := run + [Settle(0)];
    Updated(x.(settlement := Settled), Fresh(), Late(Idle));
    Then(Plain, s0, run, s2, Chain(0, One), Drained0(Idle, []));
    run := run + [Chain(0, One)];
    Updated(Late(Idle), Fresh(), Late(FlushDone));
    Then(Plain, s0, run, Drained0(Idle, []), Begin(0), Drained0(FlushDone, []));
    run := run + [Begin(0)];
    Updated(Late(FlushDone), Fresh(), Late(AwaitRead));
    Then(Plain, s0, run, Drained0(FlushDone, []), IssueRead(0), Drained0(AwaitRead, [ReadRequest(0)]));
    run := run + [IssueRead(0)];
  }

  // A step chained on a handle the drain has already settled rejects, and the run commits: the
  // handle was registered in time, and nothing registers late.
  lemma LateStepEscapesTheDrain() returns (run: Run)
    ensures IsRun(Plain, Start(), run)
    ensures var s := Exec(Plain, Start(), run);
            s.stage.Committed? && s.failures == ["late"] && s.draining == [0] && s.registry == []
  {
    run := ChainingLate();
    var s0, s1 := Start(), Drained0(AwaitRead, [ReadRequest(0)]);
    Then(Plain, s0, run, s1, Serialize, s1.(onWire := true));
    run := run + [Serialize];
    var failed := Late(Idle).(rejected := Some("late"));
    Updated(Late(AwaitRead), Fresh(), failed);
    assert [] + ["late"] == ["late"];
    var s2 := s1.(handles := [failed, Fresh()], queue := [], failure := Some("late"), failures := ["late"]);
    Then(Plain, s0, run, s1.(onWire := true), LandFails("late", 0), s2);
    run := run + [LandFails("late", 0)];
    FirstBlame(s2, [0]);
    assert [] + [CommitRequest] == [CommitRequest];
    Then(Plain, s0, run, s2, DrainDone, s2.(stage := Committing, queue := [CommitRequest]));
    run := CommitLands(s0, run + [DrainDone], s2.(stage := Committing, queue := [CommitRequest]));
  }

  // ---------------------------------------------------------------- a late step elsewhere

  lemma OwnedByZero(content: Option<string>)
    ensures Owners([Dir(0, content)], [0]) == {0}
  {
    assert 0 in [0] && [Dir(0, content)][0].owner == 0;
  }

  // Handle 0 has settled, its directive still buffered; handle 1's late read takes it along.
  function Taken(reader: Handle<string, string>): Point {
    Buffered().(handles := [Done0().(drainTo := 1, settlement := Settled), reader], dirs := [Dir(0, Some("b"))],
                stage := Draining, draining := [0], registry := [1])
  }

  lemma Taking() returns (run: Run)
    ensures Leads(Plain, Start(), run,
                  Taken(Reader(AwaitEmit)).(pending := [], queue := [EmitRequest([0], ByHandle(1))], onWire := true))
  {
    run := Buffering();
    var s0, x, r := Start(), Done0().(drainTo := 1), EmitRequest([0], ByHandle(1));
    var s1 := Buffered().(handles := [x, Fresh()], stage := Draining, draining := [0], registry := []);
    Then(Plain, s0, run, Buffered(), Return, s1);
    run := run + [Return];
    var s2 := Taken(Fresh()).(registry := []);
    Updated(x, Fresh(), x.(settlement := Settled));
    assert Resolve(Plain, s1, [0]) == [Dir(0, Some("b"))];
    Then(Plain, s0, run, s1, Settle(0), s2);
    run := run + [Settle(0)];
    assert [] + [Step<string>.Read] == [Read] && [] + [1] == [1] && [] + [r] == [r];
    Updated(x.(settlement := Settled), Fresh(), Reader(Idle));
    Then(Plain, s0, run, s2, Chain(1, Read), Taken(Reader(Idle)));
    run := run + [Chain(1, Read)];
    var s4 := Taken(Reader(AwaitEmit)).(pending := [], queue := [r]);
    Updated(x.(settlement := Settled), Reader(Idle), Reader(AwaitEmit));
    Then(Plain, s0, run, Taken(Reader(Idle)), Begin(1), s4);
    run := run + [Begin(1)];
    ResolvedAlready(s4, 0);
    Then(Plain, s0, run, s4, Serialize, s4.(onWire := true));
    run := run + [Serialize];
  }

  // A read chained late on handle 1 takes handle 0's directive into a batch of its own; the batch
  // is refused, the drain has nothing to object to, and the run commits without handle 0's op.
  lemma LateReadLosesAnotherHandlesEdit() returns (run: Run)
    ensures IsRun(Plain, Start(), run)
    ensures var s := Exec(Plain, Start(), run);
            && s.stage.Committed? && s.lost == {0} && |s.handles| == |s.tree| == 2 && s.handles[0].chain == [One]
            && Finished(s.handles[0]) && s.tree[0] == Some("a") && WriteThrough(Plain, Some("a"), [One]) == Some("b")
  {
    run := Taking();
    var s0, failed := Start(), Reader(Idle).(rejected := Some("no"));
    var s1 := Taken(Reader(AwaitEmit)).(pending := [], queue := [EmitRequest([0], ByHandle(1))], onWire := true);
    Updated(s1.handles[0], Reader(AwaitEmit), failed);
    OwnedByZero(Some("b"));
    assert [] + ["no"] == ["no"] && [0][..0] == [];
    var s2 := Taken(failed).(pending := [], failure := Some("no"), failures := ["no"], lost := {0});
    Then(Plain, s0, run, s1, LandFails("no", 0), s2);
    run := run + [LandFails("no", 0)];
    FirstBlame(s2, [0]);
    assert [] + [CommitRequest] == [CommitRequest];
    Then(Plain, s0, run, s2, DrainDone, s2.(stage := Committing, queue := [CommitRequest]));
    run := CommitLands(s0, run + [DrainDone], s2.(stage := Committing, queue := [CommitRequest]));
    OneWritten(Two);
  }

  // ---------------------------------------------------------------- a refused batch

  function Reading(phase: Phase): Handle<string, string> {
    Done0().(chain := [One, Read], phase := phase)
  }

  // Handle 1's read has put handle 0's directive into a batch, and handle 0 reads behind it.
  function Crossing(): Point {
    Buffered().(handles := [Reading(AwaitRead), Reader(AwaitEmit)], pending := [], registry := [0, 1],
                queue := [EmitRequest([0], ByHandle(1)), ReadRequest(0)])
  }

  // Handle 1's read has taken the buffer.
  function TakenAhead(): Point {
    Buffered().(handles := [Done0(), Reader(AwaitEmit)], pending := [], registry := [0, 1],
                queue := [EmitRequest([0], ByHandle(1))])
  }

  lemma TakingAhead() returns (run: Run)
    ensures Leads(Plain, Start(), run, TakenAhead())
  {
    run := Buffering();
    var s0, r := Start(), EmitRequest([0], ByHandle(1));
    assert [] + [Step<string>.Read] == [Read] && [0] + [1] == [0, 1] && [] + [r] == [r];
    var s1 := Buffered().(handles := [Done0(), Reader(Idle)], registry := [0, 1]);
    Updated(Done0(), Fresh(), Reader(Idle));
    Then(Plain, s0, run, Buffered(), Chain(1, Read), s1);
    run := run + [Chain(1, Read)];
    Updated(Done0(), Reader(Idle), Reader(AwaitEmit));
    Then(Plain, s0, run, s1, Begin(1), TakenAhead());
    run := run + [Begin(1)];
  }

  lemma ToCrossing() returns (run: Run)
    ensures Leads(Plain, Start(), run, Crossing())
  {
    run := TakingAhead();
    var s0, r := Start(), EmitRequest([0], ByHandle(1));
    assert [One] + [Step<string>.Read] == [One, Read] && [r] + [ReadRequest(0)] == [r, ReadRequest(0)];
    var s3 := TakenAhead().(handles := [Reading(Idle), Reader(AwaitEmit)]);
    Updated(Done0(), Reader(AwaitEmit), Reading(Idle));
    Then(Plain, s0, run, TakenAhead(), Chain(0, Read), s3);
    run := run + [Chain(0, Read)];
    var s4 := s3.(handles := [Reading(FlushDone), Reader(AwaitEmit)]);
    Updated(Reading(Idle), Reader(AwaitEmit), Reading(FlushDone));
    Then(Plain, s0, run, s3, Begin(0), s4);
    run := run + [Begin(0)];
    Updated(Reading(FlushDone), Reader(AwaitEmit), Reading(AwaitRead));
    Then(Plain, s0, run, s4, IssueRead(0), Crossing());
    run := run + [IssueRead(0)];
  }

  // The batch is refused; handle 0's read was under way and is answered without handle 0's op.
  lemma RefusedBatchShowsInTheRead() returns (run: Run)
    ensures IsRun(Plain, Start(), run)
    ensures var s := Exec(Plain, Start(), run);
            && s.answers == [ReadLog(0, 1, Some("a"), false)] && |s.handles| == 2 && s.handles[0].chain == [One, Read]
            && WriteThrough(Plain, Some("a"), s.handles[0].chain[..1]) == Some("b")
  {
    run := ToCrossing();
    var s0, s1 := Start(), Crossing().(dirs := [Dir(0, Some("b"))], onWire := true);
    assert Resolve(Plain, Crossing(), [0]) == [Dir(0, Some("b"))];
    Then(Plain, s0, run, Crossing(), Serialize, s1);
    run := run + [Serialize];
    var failed := Reader(Idle).(rejected := Some("no"));
    Updated(Reading(AwaitRead), Reader(AwaitEmit), failed);
    OwnedByZero(Some("b"));
    assert [] + ["no"] == ["no"] && [0][..0] == [];
    var s2 := s1.(handles := [Reading(AwaitRead), failed], queue := [ReadRequest(0)], onWire := false,
                  failure := Some("no"), failures := ["no"], lost := {0});
    assert s1.queue[1..] == [ReadRequest(0)];
    Then(Plain, s0, run, s1, LandFails("no", 0), s2);
    run := run + [LandFails("no", 0)];
    Then(Plain, s0, run, s2, Serialize, s2.(onWire := true));
    run := run + [Serialize];
    Updated(Reading(AwaitRead), failed, Reading(Idle).(pc := 2));
    var s3 := s2.(
      handles := [Reading(Idle).(pc := 2), failed], queue := [], answers := [ReadLog(0, 1, Some("a"), false)]);
    Then(Plain, s0, run, s2.(onWire := true), Land, s3);
    run := run + [Land];
    OneWritten(Two);
    assert [One, Step<string>.Read][..1] == [One];
  }
}

// Every turn keeps the invariant.
module HandleProofs {
  import opened Prelude
  import opened HandleMachine
  import opened HandleInvariant
  import opened HandleDrain

  // ---------------------------------------------------------------- ids and overlays

  lemma {:induction false} QueueIdsAppend(q: seq<Request>, r: Request)
    ensures QueueIds(q + [r]) == QueueIds(q) + RequestIds(r)
  {
    if q == [] {
      assert q + [r] == [r];
      assert QueueIds([r]) == RequestIds(r) + QueueIds([]);
    } else {
      assert (q + [r])[1..] == q[1..] + [r];
      QueueIdsAppend(q[1..], r);
    }
  }

  lemma {:induction false} QueueIdsSuffix(q: seq<Request>, r: Request, i: nat)
    requires i <= |q|
    ensures QueueIds((q + [r])[i..]) == QueueIds(q[i..]) + RequestIds(r)
  {
    assert (q + [r])[i..] == q[i..] + [r];
    QueueIdsAppend(q[i..], r);
  }

  lemma {:induction false} OverlayAppend<A, E>(d: Dialect<A, E>, dirs: seq<Dir>, live: Option<A>, h: nat,
                                               front: seq<nat>, back: seq<nat>, base: Option<string>)
    ensures Overlay(d, dirs, live, h, front + back, base)
         == Overlay(d, dirs, live, h, back, Overlay(d, dirs, live, h, front, base))
  {
    if back == [] {
      assert front + back == front;
    } else {
      assert (front + back)[..|front + back| - 1] == front + back[..|back| - 1];
      OverlayAppend(d, dirs, live, h, front, back[..|back| - 1], base);
    }
  }

  // Overlays read only the listed directives of `h`.
  lemma {:induction false} OverlayFrame<A, E>(d: Dialect<A, E>, dirs: seq<Dir>, live: Option<A>,
                                              dirs': seq<Dir>, live': Option<A>, h: nat, ids: seq<nat>,
                                              base: Option<string>)
    requires forall id :: id in ids ==> id < |dirs| && id < |dirs'|
    requires forall id :: id in ids ==> dirs'[id].owner == dirs[id].owner
    requires forall id :: id in ids && dirs[id].owner == h ==> TextOf(d, dirs'[id], live') == TextOf(d, dirs[id], live)
    ensures Overlay(d, dirs', live', h, ids, base) == Overlay(d, dirs, live, h, ids, base)
  {
    if ids != [] {
      var front := ids[..|ids| - 1];
      forall id | id in front ensures id in ids {}
      OverlayFrame(d, dirs, live, dirs', live', h, front, base);
    }
  }

  lemma {:induction false} OverlayNone<A, E>(d: Dialect<A, E>, dirs: seq<Dir>, live: Option<A>, h: nat, ids: seq<nat>,
                                             base: Option<string>)
    requires NoneOwned(dirs, ids, h)
    ensures Overlay(d, dirs, live, h, ids, base) == base
  {
    if ids != [] {
      OverlayNone(d, dirs, live, h, ids[..|ids| - 1], base);
    }
  }

  // The engine's array-order application writes each file its overlay.
  lemma {:induction false} WriteAllIsOverlay<A, E>(
      d: Dialect<A, E>, tree: seq<Option<string>>, dirs: seq<Dir>, ids: seq<nat>, live: Option<A>, h: nat)
    requires h < |tree|
    requires forall id :: id in ids ==> id < |dirs| && dirs[id].content.Some? && dirs[id].owner < |tree|
    ensures WriteAll(tree, dirs, ids)[h] == Overlay(d, dirs, live, h, ids, tree[h])
  {
    if ids != [] {
      var front := ids[..|ids| - 1];
      forall id | id in front ensures id in ids {}
      WriteAllIsOverlay(d, tree, dirs, front, live, h);
    }
  }

  // The last directive of `h` in an increasing list is its newest.
  lemma {:induction false} OverlayNewest<A, E>(d: Dialect<A, E>, dirs: seq<Dir>, live: Option<A>, h: nat, ids: seq<nat>,
                                               base: Option<string>, newest: nat)
    requires Increasing(ids) && newest in ids && newest < |dirs| && dirs[newest].owner == h
    requires forall id :: 0 <= id < |dirs| && dirs[id].owner == h ==> id <= newest
    ensures Overlay(d, dirs, live, h, ids, base) == Some(TextOf(d, dirs[newest], live))
  {
    var last := ids[|ids| - 1];
    if last < |dirs| && dirs[last].owner == h {
      assert last >= newest;
    } else {
      OverlayNewest(d, dirs, live, h, ids[..|ids| - 1], base, newest);
    }
  }

  lemma HasOpStep<E>(chain: seq<Step<E>>, pc: nat)
    requires pc < |chain|
    ensures HasOp(chain[..pc + 1]) <==> HasOp(chain[..pc]) || chain[pc].Op?
    ensures Edits(chain[..pc + 1]) == Edits(chain[..pc]) + (if chain[pc].Read? then [] else chain[pc].edits)
  {
    assert chain[..pc + 1][..pc] == chain[..pc];
  }

  lemma {:induction false} PrefixUnmoved<E>(chain: seq<Step<E>>, step: Step<E>, pc: nat)
    requires pc <= |chain|
    ensures (chain + [step])[..pc] == chain[..pc]
  {
  }

  // ---------------------------------------------------------------- structure, turn by turn

  lemma ChainStructure<A, E>(d: Dialect<A, E>, s: State<A, E>, h: nat, step: Step<E>)
    requires Structure(s) && Enabled(s, Chain(h, step))
    ensures Structure(Apply(d, s, Chain(h, step)))
  {
    var s' := Apply(d, s, Chain(h, step));
    assert forall g :: 0 <= g < |s.handles| && g != h ==> s'.handles[g] == s.handles[g];
    forall g | 0 <= g < |s.handles| ensures HandleOk(s', g) {
      assert HandleOk(s, g);
    }
    forall i | 0 <= i < |s.queue| ensures RequestOk(s', i) {
      assert RequestOk(s, i);
    }
  }

  lemma IncreasingTail(front: seq<nat>, back: seq<nat>)
    requires Increasing(front + back)
    ensures Increasing(back) && forall id :: id in back ==> id in front + back
  {
    var all := front + back;
    assert forall i :: 0 <= i < |back| ==> back[i] == all[|front| + i];
    forall i, j | 0 <= i < j < |back| ensures back[i] < back[j] {
      assert all[|front| + i] < all[|front| + j];
    }
  }

  // Adding a request: it takes its ids from the buffer, so nothing outstanding is reordered.
  lemma EnqueuedRequestOk<A, E>(s: State<A, E>, s': State<A, E>, r: Request, i: nat)
    requires i < |s.queue| && RequestOk(s, i)
    requires s'.queue == s.queue + [r] && RequestIds(r) + s'.pending == s.pending
    requires s'.dirs == s.dirs && |s'.handles| == |s.handles| && s'.stage == s.stage
    requires forall g :: 0 <= g < |s.handles| && Some(g) == OwnerOf(s.queue[i]) ==> s'.handles[g] == s.handles[g]
    ensures RequestOk(s', i)
  {
    QueueIdsSuffix(s.queue, r, i + 1);
    assert QueueIds(s'.queue[i + 1..]) + s'.pending == QueueIds(s.queue[i + 1..]) + s.pending;
  }

  lemma EnqueueShape<A, E>(s: State<A, E>, s': State<A, E>, r: Request)
    requires Shape(s)
    requires s'.queue == s.queue + [r] && RequestIds(r) + s'.pending == s.pending
    requires s'.dirs == s.dirs && |s'.handles| == |s.handles| && s'.onWire == s.onWire
    requires s'.tree == s.tree && s'.initial == s.initial
    ensures Shape(s') && Outstanding(s') == Outstanding(s)
  {
    QueueIdsAppend(s.queue, r);
    assert Outstanding(s') == Outstanding(s);
  }

  lemma EnqueueStructure<A, E>(s: State<A, E>, s': State<A, E>, r: Request, h: nat)
    requires Structure(s) && h < |s.handles| && OwnerOf(r) == Some(h)
    requires s'.queue == s.queue + [r] && RequestIds(r) + s'.pending == s.pending
    requires s'.dirs == s.dirs && |s'.handles| == |s.handles| && s'.onWire == s.onWire && s'.stage == s.stage
    requires s'.tree == s.tree && s'.initial == s.initial
    requires forall g :: 0 <= g < |s.handles| && g != h ==> s'.handles[g] == s.handles[g]
    requires !s.handles[h].phase.AwaitEmit? && !s.handles[h].phase.AwaitRead?
    requires HandleOk(s', h) && RequestOk(s', |s.queue|)
    ensures Structure(s') && Outstanding(s') == Outstanding(s)
  {
    EnqueueShape(s, s', r);
    forall g | 0 <= g < |s.handles| ensures HandleOk(s', g) {
      assert HandleOk(s, g);
      assert forall id :: id in s'.pending ==> id in s.pending;
    }
    forall i | 0 <= i < |s'.queue| ensures RequestOk(s', i) {
      if i < |s.queue| {
        assert RequestOk(s, i);
        EnqueuedRequestOk(s, s', r, i);
      }
    }
    forall i, j | 0 <= i < j < |s'.queue|
      ensures OwnerOf(s'.queue[i]).None? || OwnerOf(s'.queue[i]) != OwnerOf(s'.queue[j])
    {
      assert RequestOk(s, i);
    }
  }

  // A turn that changes one handle's fields and nothing the queue or the directives depend on.
  lemma LocalStructure<A, E>(s: State<A, E>, s': State<A, E>, h: nat)
    requires Structure(s) && h < |s.handles|
    requires s'.queue == s.queue && s'.pending == s.pending && s'.onWire == s.onWire && s'.stage == s.stage
    requires s'.dirs == s.dirs && s'.tree == s.tree && s'.initial == s.initial
    requires |s'.handles| == |s.handles| && forall g :: 0 <= g < |s.handles| && g != h ==> s'.handles[g] == s.handles[g]
    requires s.handles[h].phase != s'.handles[h].phase ==>
               !s.handles[h].phase.AwaitEmit? && !s.handles[h].phase.AwaitRead?
    requires HandleOk(s', h)
    ensures Structure(s')
  {
    forall g | 0 <= g < |s.handles| ensures HandleOk(s', g) { assert HandleOk(s, g); }
    forall i | 0 <= i < |s'.queue| ensures RequestOk(s', i) { assert RequestOk(s, i); }
  }

  // Memoizing getters changes contents from absent to present and nothing else.
  lemma ResolveStructure<A, E>(d: Dialect<A, E>, s: State<A, E>, ids: seq<nat>, s': State<A, E>)
    requires Structure(s)
    requires s' == s.(dirs := Resolve(d, s, ids))
    ensures Structure(s')
  {
    forall g | 0 <= g < |s.handles| ensures HandleOk(s', g) { assert HandleOk(s, g); }
    forall i | 0 <= i < |s'.queue| ensures RequestOk(s', i) { assert RequestOk(s, i); }
  }

  lemma BeginStructure<A, E>(d: Dialect<A, E>, s: State<A, E>, h: nat)
    requires Structure(s) && Enabled(s, Begin(h))
    ensures Structure(Apply(d, s, Begin(h)))
    ensures Outstanding(Apply(d, s, Begin(h))) == Outstanding(s)
  {
    var s' := Apply(d, s, Begin(h));
    assert HandleOk(s, h);
    if s'.queue == s.queue {
      LocalStructure(s, s', h);
    } else {
      var r := EmitRequest(s.pending, ByHandle(h));
      EnqueueStructure(s, s', r, h);
    }
  }

  lemma IssueReadStructure<A, E>(d: Dialect<A, E>, s: State<A, E>, h: nat)
    requires Structure(s) && Enabled(s, IssueRead(h))
    ensures Structure(Apply(d, s, IssueRead(h)))
    ensures Outstanding(Apply(d, s, IssueRead(h))) == Outstanding(s)
  {
    var s' := Apply(d, s, IssueRead(h));
    assert HandleOk(s, h);
    assert s'.queue[|s.queue| + 1..] == [];
    EnqueueStructure(s, s', ReadRequest(h), h);
  }

  // Dropping the answered request while its caller moves on.
  lemma DequeueStructure<A, E>(s: State<A, E>, s': State<A, E>)
    requires Structure(s) && s.queue != [] && s.onWire
    requires s'.queue == s.queue[1..] && !s'.onWire && s'.pending == s.pending && s'.stage == s.stage
    requires s'.dirs == s.dirs && |s'.tree| == |s.tree| && s'.initial == s.initial
    requires |s'.handles| == |s.handles|
    requires forall g :: 0 <= g < |s.handles| && Some(g) != OwnerOf(s.queue[0]) ==> s'.handles[g] == s.handles[g]
    requires OwnerOf(s.queue[0]).Some? ==>
               OwnerOf(s.queue[0]).value < |s.handles| && HandleOk(s', OwnerOf(s.queue[0]).value)
    ensures Structure(s')
  {
    assert Outstanding(s) == RequestIds(s.queue[0]) + Outstanding(s');
    IncreasingTail(RequestIds(s.queue[0]), Outstanding(s'));
    forall g | 0 <= g < |s.handles| ensures HandleOk(s', g) { assert HandleOk(s, g); }
    forall i | 0 <= i < |s'.queue| ensures RequestOk(s', i) {
      assert RequestOk(s, i + 1);
      assert s'.queue[i] == s.queue[i + 1];
      assert s'.queue[i + 1..] == s.queue[i + 2..];
    }
    forall i, j | 0 <= i < j < |s'.queue|
      ensures OwnerOf(s'.queue[i]).None? || OwnerOf(s'.queue[i]) != OwnerOf(s'.queue[j])
    {
      assert s'.queue[i] == s.queue[i + 1] && s'.queue[j] == s.queue[j + 1];
    }
  }

  // Buffering a fresh directive of `h`.
  lemma RegisterStructure<A, E>(s: State<A, E>, s': State<A, E>, h: nat)
    requires Structure(s) && h < |s.handles| && s.handles[h].phase.Working?
    requires s'.queue == s.queue && s'.onWire == s.onWire && s'.stage == s.stage
    requires s'.pending == s.pending + [|s.dirs|] && s'.dirs == s.dirs + [Dir(h, None)]
    requires s'.tree == s.tree && s'.initial == s.initial
    requires |s'.handles| == |s.handles| && forall g :: 0 <= g < |s.handles| && g != h ==> s'.handles[g] == s.handles[g]
    requires s'.handles[h].phase.Idle? && HandleOk(s', h)
    ensures Structure(s') && Outstanding(s') == Outstanding(s) + [|s.dirs|]
  {
    assert Outstanding(s') == Outstanding(s) + [|s.dirs|];
    forall i | 0 <= i < |Outstanding(s)| ensures Outstanding(s)[i] < |s.dirs| {
      assert Outstanding(s)[i] in Outstanding(s);
    }
    forall g | 0 <= g < |s.handles| ensures HandleOk(s', g) { assert HandleOk(s, g); }
    forall i | 0 <= i < |s'.queue| ensures RequestOk(s', i) {
      assert RequestOk(s, i);
      if s.queue[i].ReadRequest? {
        var later := QueueIds(s.queue[i + 1..]) + s.pending;
        assert QueueIds(s'.queue[i + 1..]) + s'.pending == later + [|s.dirs|];
        forall id | id in later && id < |s'.dirs| ensures s'.dirs[id].owner != s.queue[i].h {
          SuffixOutstanding(s, i + 1);
          assert id in Outstanding(s);
        }
      }
    }
  }

  lemma {:induction false} SuffixOutstanding<A, E>(s: State<A, E>, i: nat)
    requires i <= |s.queue|
    ensures forall id :: id in QueueIds(s.queue[i..]) + s.pending ==> id in Outstanding(s)
    decreases i
  {
    if i == 0 {
      assert s.queue[0..] == s.queue;
    } else {
      assert s.queue[i - 1..][1..] == s.queue[i..];
      SuffixOutstanding(s, i - 1);
    }
  }

  // The part of the gate before a fresh directive is buffered.
  function Drop<A, E>(d: Dialect<A, E>, s: State<A, E>, h: nat): State<A, E>
    requires Enabled(s, Finish(h)) && CurrentStep(s, h).Op?
  {
    var x := s.handles[h];
    if x.open.Some? && x.open.value !in s.pending then
      var dirs := Resolve(d, s, [x.open.value]);
      var text :=
        if x.open.value < |dirs| && dirs[x.open.value].content.Some? then dirs[x.open.value].content.value else "";
      Put(s, h, x.(open := None, last := text)).(dirs := dirs)
    else s
  }

  lemma DropStructure<A, E>(d: Dialect<A, E>, s: State<A, E>, h: nat)
    requires Structure(s) && Enabled(s, Finish(h)) && CurrentStep(s, h).Op?
    ensures Structure(Drop(d, s, h)) && Outstanding(Drop(d, s, h)) == Outstanding(s)
  {
    var s' := Drop(d, s, h);
    assert HandleOk(s, h);
    if s' != s {
      var mid := s.(dirs := s'.dirs);
      ResolveStructure(d, s, [s.handles[h].open.value], mid);
      LocalStructure(mid, s', h);
    }
  }

  // The gate is: drop a drained directive, then buffer a fresh one if the print changed.
  lemma GateInTwo<A, E>(d: Dialect<A, E>, s: State<A, E>, h: nat)
    requires Structure(s) && Enabled(s, Finish(h)) && CurrentStep(s, h).Op?
    ensures var mid := Drop(d, s, h);
            var x := mid.handles[h];
            var done := x.(pc := x.pc + 1, phase := Idle);
            ApplyGate(d, s, h) ==
              if x.open.Some? || d.render(x.live.value) == x.last then Put(mid, h, done)
              else Put(mid, h, done.(open := Some(|mid.dirs|))).(
                     dirs := mid.dirs + [Dir(h, None)], pending := mid.pending + [|mid.dirs|])
  {
    assert HandleOk(s, h);
  }

  lemma GateStructure<A, E>(d: Dialect<A, E>, s: State<A, E>, h: nat)
    requires Structure(s) && Enabled(s, Finish(h)) && CurrentStep(s, h).Op?
    ensures Structure(ApplyGate(d, s, h))
  {
    GateInTwo(d, s, h);
    DropStructure(d, s, h);
    var mid := Drop(d, s, h);
    var s' := ApplyGate(d, s, h);
    assert HandleOk(mid, h);
    var x := mid.handles[h];
    if x.open.Some? || d.render(x.live.value) == x.last {
      LocalStructure(mid, s', h);
    } else {
      RegisterStructure(mid, s', h);
    }
  }

  lemma QueryStructure<A, E>(d: Dialect<A, E>, s: State<A, E>, h: nat)
    requires Structure(s) && Enabled(s, Finish(h)) && !CurrentStep(s, h).Op?
    ensures Structure(ApplyQueryEnd(d, s, h))
  {
    assert HandleOk(s, h);
    LocalStructure(s, ApplyQueryEnd(d, s, h), h);
  }

  lemma FailStructure<A, E>(s: State<A, E>, h: nat, reason: string)
    requires Structure(s) && Runnable(s, h)
    requires !s.handles[h].phase.AwaitEmit? && !s.handles[h].phase.AwaitRead?
    ensures Structure(Fail(s, h, reason))
  {
    assert HandleOk(s, h);
    LocalStructure(s, Fail(s, h, reason), h);
  }

  lemma EditStructure<A, E>(d: Dialect<A, E>, s: State<A, E>, h: nat)
    requires Structure(s) && Enabled(s, Edit(h))
    ensures Structure(Apply(d, s, Edit(h)))
  {
    assert HandleOk(s, h);
    LocalStructure(s, Apply(d, s, Edit(h)), h);
  }

  lemma SerializeStructure<A, E>(d: Dialect<A, E>, s: State<A, E>)
    requires Structure(s) && Enabled(s, Serialize)
    ensures Structure(Apply(d, s, Serialize))
  {
    var ids := RequestIds(s.queue[0]);
    var mid := s.(dirs := Resolve(d, s, ids));
    ResolveStructure(d, s, ids, mid);
    var s' := Apply(d, s, Serialize);
    assert mid.dirs == s'.dirs by {
      if !s.queue[0].EmitRequest? { assert mid.dirs == s.dirs; }
    }
    forall id | id in ids ensures id < |s'.dirs| && s'.dirs[id].content.Some? {
      assert id in Outstanding(s);
    }
    assert Shape(s');
    forall g | 0 <= g < |s.handles| ensures HandleOk(s', g) { assert HandleOk(mid, g); }
    forall i | 0 <= i < |s'.queue| ensures RequestOk(s', i) { assert RequestOk(mid, i); }
    assert OneRequestEach(s') by { assert OneRequestEach(mid); }
  }

  lemma SettleStructure<A, E>(d: Dialect<A, E>, s: State<A, E>, h: nat)
    requires Structure(s) && Enabled(s, Settle(h))
    ensures Structure(Apply(d, s, Settle(h)))
  {
    assert HandleOk(s, h);
    var s' := Apply(d, s, Settle(h));
    var mid := s.(dirs := s'.dirs);
    if s.handles[h].open.Some? {
      ResolveStructure(d, s, [s.handles[h].open.value], mid);
    }
    assert HandleOk(mid, h);
    LocalStructure(mid, s', h);
  }

  lemma SettleFailsStructure<A, E>(d: Dialect<A, E>, s: State<A, E>, h: nat, reason: string)
    requires Structure(s) && Enabled(s, SettleFails(h, reason))
    ensures Structure(Apply(d, s, SettleFails(h, reason)))
  {
    assert HandleOk(s, h);
    LocalStructure(s, Apply(d, s, SettleFails(h, reason)), h);
  }

  // Landing a handle's own request: only that handle moves.
  lemma LandForHandle<A, E>(d: Dialect<A, E>, s: State<A, E>)
    requires Structure(s) && Enabled(s, Land) && OwnerOf(s.queue[0]).Some?
    ensures Structure(ApplyLand(d, s))
  {
    var h := OwnerOf(s.queue[0]).value;
    assert RequestOk(s, 0);
    assert HandleOk(s, h);
    assert HandleOk(ApplyLand(d, s), h) by {
      if s.queue[0].ReadRequest? { ReplyHandleOk(d, s, h); }
    }
    DequeueStructure(s, ApplyLand(d, s));
  }

  lemma ReplyHandleOk<A, E>(d: Dialect<A, E>, s: State<A, E>, h: nat)
    requires Structure(s) && Enabled(s, Land) && s.queue[0] == ReadRequest(h) && h < |s.handles|
    ensures HandleOk(ApplyLand(d, s), h)
  {
    assert RequestOk(s, 0);
    assert HandleOk(s, h);
  }

  lemma LandFailsForHandle<A, E>(d: Dialect<A, E>, s: State<A, E>, reason: string, landed: nat)
    requires Structure(s) && Enabled(s, LandFails(reason, landed)) && OwnerOf(s.queue[0]).Some?
    ensures Structure(ApplyLandFails(s, reason, landed))
  {
    var h := OwnerOf(s.queue[0]).value;
    assert RequestOk(s, 0);
    assert HandleOk(s, h);
    DequeueStructure(s, ApplyLandFails(s, reason, landed));
  }

  // A change of stage is felt only by the run's own requests.
  lemma StageStructure<A, E>(s: State<A, E>, s': State<A, E>)
    requires Structure(s)
    requires s'.queue == s.queue && s'.pending == s.pending && s'.onWire == s.onWire
    requires s'.dirs == s.dirs && |s'.tree| == |s.tree| && s'.initial == s.initial
    requires |s'.handles| == |s.handles|
    requires forall g :: 0 <= g < |s.handles| ==>
               s'.handles[g].(drainTo := 0) == s.handles[g].(drainTo := 0)
    requires forall i :: 0 <= i < |s.queue| ==> OwnerOf(s.queue[i]).Some? || RequestOk(s', i)
    ensures Structure(s')
  {
    forall g | 0 <= g < |s.handles| ensures HandleOk(s', g) { assert HandleOk(s, g); }
    forall i | 0 <= i < |s'.queue| ensures RequestOk(s', i) { assert RequestOk(s, i); }
  }

  // The run's own request joins the queue behind the handles' requests.
  lemma RunRequestStructure<A, E>(s: State<A, E>, s': State<A, E>, r: Request)
    requires Structure(s) && OwnerOf(r).None? && forall i :: 0 <= i < |s.queue| ==> OwnerOf(s.queue[i]).Some?
    requires s'.queue == s.queue + [r] && RequestIds(r) + s'.pending == s.pending
    requires s'.dirs == s.dirs && s'.handles == s.handles && s'.onWire == s.onWire
    requires s'.tree == s.tree && s'.initial == s.initial
    requires if r.CommitRequest? then s'.stage.Committing? else s'.stage.Flushing?
    ensures Structure(s') && Outstanding(s') == Outstanding(s)
  {
    EnqueueShape(s, s', r);
    forall g | 0 <= g < |s.handles| ensures HandleOk(s', g) {
      assert HandleOk(s, g);
      assert forall id :: id in s'.pending ==> id in s.pending;
    }
    forall i | 0 <= i < |s'.queue| ensures RequestOk(s', i) {
      if i < |s.queue| { RunRequestSpares(s, s', r, i); }
    }
    assert OneRequestEach(s') by { assert OneRequestEach(s); }
  }

  lemma RunRequestSpares<A, E>(s: State<A, E>, s': State<A, E>, r: Request, i: nat)
    requires i < |s.queue| && RequestOk(s, i) && OwnerOf(s.queue[i]).Some?
    requires s'.queue == s.queue + [r] && RequestIds(r) + s'.pending == s.pending
    requires s'.dirs == s.dirs && s'.handles == s.handles
    ensures RequestOk(s', i)
  {
    QueueIdsSuffix(s.queue, r, i + 1);
    assert QueueIds(s'.queue[i + 1..]) + s'.pending == QueueIds(s.queue[i + 1..]) + s.pending;
  }

  // ---------------------------------------------------------------- every turn

  // At most one request of the run's own is in the queue.
  lemma OthersAreHandles<A, E>(s: State<A, E>)
    requires DrainInv(s) && s.queue != [] && OwnerOf(s.queue[0]).None?
    ensures forall i :: 1 <= i < |s.queue| ==> OwnerOf(s.queue[i]).Some?
  {
  }

  lemma RequestOkHead<A, E>(s: State<A, E>)
    requires Structure(s) && s.queue != []
    ensures RequestOk(s, 0)
    ensures OwnerOf(s.queue[0]).Some? ==>
              OwnerOf(s.queue[0]).value < |s.handles| && Runnable(s, OwnerOf(s.queue[0]).value)
  {
    assert RequestOk(s, 0);
    if OwnerOf(s.queue[0]).Some? { assert HandleOk(s, OwnerOf(s.queue[0]).value); }
  }

  lemma KeepsStructure<A, E>(d: Dialect<A, E>, s: State<A, E>, a: Action<E>)
    requires Structure(s) && DrainInv(s) && Enabled(s, a)
    ensures Structure(Apply(d, s, a))
  {
    match a {
      case Chain(h, step) => ChainStructure(d, s, h, step);
      case Begin(h) => BeginStructure(d, s, h);
      case IssueRead(h) => IssueReadStructure(d, s, h);
      case Edit(h) => EditStructure(d, s, h);
      case Throw(h, reason) => FailStructure(s, h, reason);
      case Finish(h) => if CurrentStep(s, h).Op? { GateStructure(d, s, h); } else { QueryStructure(d, s, h); }
      case Serialize => SerializeStructure(d, s);
      case Land => LandStructure(d, s);
      case LandFails(reason, landed) => LandFailsStructure(d, s, reason, landed);
      case Settle(h) => SettleStructure(d, s, h);
      case SettleFails(h, reason) => SettleFailsStructure(d, s, h, reason);
      case Return => AuthorStructure(d, s, a);
      case AuthorThrow(_) => AuthorStructure(d, s, a);
      case DrainDone => DrainDoneStructure(d, s);
    }
  }

  lemma AuthorStructure<A, E>(d: Dialect<A, E>, s: State<A, E>, a: Action<E>)
    requires Structure(s) && DrainInv(s) && Enabled(s, a) && (a.Return? || a.AuthorThrow?)
    ensures Structure(Apply(d, s, a))
  {
    NoRunRequest(s);
    StageStructure(s, Apply(d, s, a));
  }

  lemma DrainDoneStructure<A, E>(d: Dialect<A, E>, s: State<A, E>)
    requires Structure(s) && DrainInv(s) && Enabled(s, DrainDone)
    ensures Structure(Apply(d, s, DrainDone))
    ensures Outstanding(Apply(d, s, DrainDone)) == Outstanding(s)
  {
    var s' := Apply(d, s, DrainDone);
    NoRunRequest(s);
    if DrainError(s, s.draining).Some? {
      StageStructure(s, s');
    } else {
      RunRequestStructure(s, s', s'.queue[|s.queue|]);
    }
  }

  lemma LandStructure<A, E>(d: Dialect<A, E>, s: State<A, E>)
    requires Structure(s) && DrainInv(s) && Enabled(s, Land)
    ensures Structure(Apply(d, s, Land))
  {
    if OwnerOf(s.queue[0]).Some? { LandForHandle(d, s); } else { LandForRun(d, s); }
  }

  lemma LandForRun<A, E>(d: Dialect<A, E>, s: State<A, E>)
    requires Structure(s) && DrainInv(s) && Enabled(s, Land) && OwnerOf(s.queue[0]).None?
    ensures Structure(Apply(d, s, Land))
  {
    var s' := Apply(d, s, Land);
    OthersAreHandles(s);
    var mid := Dequeue(s).(tree := s'.tree);
    DequeueStructure(s, mid);
    if s.queue[0].EmitRequest? {
      RunRequestStructure(mid, s', CommitRequest);
    } else {
      StageStructure(mid, s');
    }
  }

  lemma LandFailsStructure<A, E>(d: Dialect<A, E>, s: State<A, E>, reason: string, landed: nat)
    requires Structure(s) && DrainInv(s) && Enabled(s, LandFails(reason, landed))
    ensures Structure(Apply(d, s, LandFails(reason, landed)))
  {
    if OwnerOf(s.queue[0]).Some? {
      LandFailsForHandle(d, s, reason, landed);
    } else {
      OthersAreHandles(s);
      DequeueStructure(s, Dequeue(s));
      StageStructure(Dequeue(s), Apply(d, s, LandFails(reason, landed)));
    }
  }

  lemma InitStructure<A, E>(files: seq<Option<string>>)
    ensures Structure(Init<A, E>(files))
  {
  }

  lemma InitBase<A, E>(files: seq<Option<string>>)
    ensures Base(Init<A, E>(files))
  {
    InitStructure<A, E>(files);
    InitDrain<A, E>(files);
  }

  lemma KeepsBase<A, E>(d: Dialect<A, E>, s: State<A, E>, a: Action<E>)
    requires Base(s) && Enabled(s, a)
    ensures Base(Apply(d, s, a))
  {
    KeepsStructure(d, s, a);
    KeepsPoison(d, s, a);
    KeepsDrain(d, s, a);
  }

  // Structure, poison flag and drain hold in every reachable state of every run.
  lemma {:induction false} RunKeepsBase<A, E>(d: Dialect<A, E>, files: seq<Option<string>>, actions: seq<Action<E>>)
    requires IsRun(d, Init(files), actions)
    ensures Base(Exec(d, Init(files), actions))
    decreases |actions|
  {
    if actions == [] {
      InitBase<A, E>(files);
    } else {
      var front := actions[..|actions| - 1];
      RunKeepsBase(d, files, front);
      KeepsBase(d, Exec(d, Init(files), front), actions[|actions| - 1]);
    }
  }

  // ---------------------------------------------------------------- the text

  // A turn that leaves file `h`'s directives, base and live text alone.
  lemma TextFrame<A, E>(d: Dialect<A, E>, s: State<A, E>, s': State<A, E>, h: nat)
    requires Structure(s) && h < |s.handles| && TextOk(d, s, h)
    requires |s'.tree| == |s'.initial| == |s'.handles| == |s.handles|
    requires s'.initial == s.initial && s'.tree[h] == s.tree[h]
    requires Outstanding(s') == Outstanding(s)
    requires |s.dirs| <= |s'.dirs|
    requires forall id :: 0 <= id < |s.dirs| ==> s'.dirs[id].owner == s.dirs[id].owner
    requires forall id :: 0 <= id < |s.dirs| && s.dirs[id].owner == h ==> s'.dirs[id] == s.dirs[id]
    requires s'.handles[h].(drainTo := 0, settlement := NotSettled)
             == s.handles[h].(drainTo := 0, settlement := NotSettled)
    ensures TextOk(d, s', h)
  {
    assert HandleOk(s, h);
    OverlayFrame(d, s.dirs, s.handles[h].live, s'.dirs, s'.handles[h].live, h, Outstanding(s), s.tree[h]);
  }

  // A handle that only changes its phase, at a point where its file's text stands.
  lemma TextRephase<A, E>(d: Dialect<A, E>, s: State<A, E>, s': State<A, E>, h: nat)
    requires |s.tree| == |s.initial| == |s.handles| && h < |s.handles| && TextOk(d, s, h)
    requires |s'.tree| == |s'.initial| == |s'.handles| == |s.handles|
    requires s'.initial == s.initial && s'.dirs == s.dirs
    requires Eventual(d, s', h) == Eventual(d, s, h)
    requires s'.handles[h].(phase := Idle) == s.handles[h].(phase := Idle)
    requires Progress(s'.handles[h]) == Progress(s.handles[h]) && !Dirty(s.handles[h])
    requires !s.handles[h].phase.Working? && s'.handles[h].phase.Working? && s.handles[h].live.Some? ==>
               s'.handles[h].phase.k == 0 && s'.handles[h].phase.before == d.render(s.handles[h].live.value)
    requires s.handles[h].phase.Working? ==>
               !s'.handles[h].phase.Working? || s'.handles[h].phase == s.handles[h].phase
    ensures TextOk(d, s', h)
  {
  }

  // Evaluating getters early changes no text, now or later.
  lemma TextResolve<A, E>(d: Dialect<A, E>, s: State<A, E>, ids: seq<nat>, h: nat)
    requires Structure(s) && h < |s.handles| && TextOk(d, s, h)
    ensures TextOk(d, s.(dirs := Resolve(d, s, ids)), h)
  {
    assert HandleOk(s, h);
    OverlayFrame(d, s.dirs, s.handles[h].live, Resolve(d, s, ids), s.handles[h].live, h, Outstanding(s), s.tree[h]);
  }

  lemma SerializeText<A, E>(d: Dialect<A, E>, s: State<A, E>, h: nat)
    requires Structure(s) && Enabled(s, Serialize) && h < |s.handles| && TextOk(d, s, h)
    ensures TextOk(d, Apply(d, s, Serialize), h)
  {
    var ids := RequestIds(s.queue[0]);
    if !s.queue[0].EmitRequest? { assert Resolve(d, s, []) == s.dirs; }
    var mid := s.(dirs := Resolve(d, s, ids));
    TextResolve(d, s, ids, h);
    ResolveStructure(d, s, ids, mid);
    TextFrame(d, mid, Apply(d, s, Serialize), h);
  }

  lemma SettleText<A, E>(d: Dialect<A, E>, s: State<A, E>, g: nat, h: nat)
    requires Structure(s) && Enabled(s, Settle(g)) && h < |s.handles| && TextOk(d, s, h)
    ensures TextOk(d, Apply(d, s, Settle(g)), h)
  {
    var ids := if s.handles[g].open.Some? then [s.handles[g].open.value] else [];
    if ids == [] { assert Resolve(d, s, []) == s.dirs; }
    var mid := s.(dirs := Resolve(d, s, ids));
    TextResolve(d, s, ids, h);
    ResolveStructure(d, s, ids, mid);
    TextFrame(d, mid, Apply(d, s, Settle(g)), h);
  }

  // What the gate and an edit rely on: the newest directive's text is the file's text.
  lemma OpenDecides<A, E>(d: Dialect<A, E>, s: State<A, E>, h: nat, live: Option<A>)
    requires Structure(s) && h < |s.handles| && TextOk(d, s, h) && s.handles[h].live.Some? && live.Some?
    ensures s.handles[h].open.None? ==>
              Overlay(d, s.dirs, live, h, Outstanding(s), s.tree[h]) == Some(s.handles[h].last)
    ensures s.handles[h].open.Some? ==>
              Overlay(d, s.dirs, live, h, Outstanding(s), s.tree[h])
              == Some(TextOf(d, s.dirs[s.handles[h].open.value], live))
  {
    var x := s.handles[h];
    assert HandleOk(s, h);
    if x.open.Some? && x.open.value in Outstanding(s) {
      OverlayNewest(d, s.dirs, live, h, Outstanding(s), s.tree[h], x.open.value);
    } else {
      OverlayFrame(d, s.dirs, x.live, s.dirs, live, h, Outstanding(s), s.tree[h]);
    }
  }

  lemma EditProgress<A, E>(d: Dialect<A, E>, s: State<A, E>, h: nat)
    requires Structure(s) && Enabled(s, Edit(h)) && s.handles[h].applied == Progress(s.handles[h])
    ensures var x, x' := s.handles[h], Apply(d, s, Edit(h)).handles[h];
            && x'.applied == Progress(x')
            && forall ast ::
                 ApplyAll(d, x'.applied, ast) == d.edit(x.chain[x.pc].edits[x.phase.k], ApplyAll(d, x.applied, ast))
  {
    var x, x' := s.handles[h], Apply(d, s, Edit(h)).handles[h];
    assert HandleOk(s, h);
    var k, edits := x.phase.k, x.chain[x.pc].edits;
    assert edits[..k + 1] == edits[..k] + [edits[k]];
    assert x'.applied[..|x.applied|] == x.applied;
  }

  lemma EditOwnText<A, E>(d: Dialect<A, E>, s: State<A, E>, h: nat)
    requires Structure(s) && Enabled(s, Edit(h)) && TextOk(d, s, h)
    ensures TextOk(d, Apply(d, s, Edit(h)), h)
  {
    var s' := Apply(d, s, Edit(h));
    var x, x' := s.handles[h], s'.handles[h];
    assert HandleOk(s, h);
    EditProgress(d, s, h);
    OpenDecides(d, s, h, x'.live);
    assert Eventual(d, s', h) == Overlay(d, s.dirs, x'.live, h, Outstanding(s), s.tree[h]);
    assert Dirty(x');
  }

  lemma EditText<A, E>(d: Dialect<A, E>, s: State<A, E>, g: nat, h: nat)
    requires Structure(s) && Enabled(s, Edit(g)) && h < |s.handles| && TextOk(d, s, h)
    ensures TextOk(d, Apply(d, s, Edit(g)), h)
  {
    if g == h { EditOwnText(d, s, h); } else { TextFrame(d, s, Apply(d, s, Edit(g)), h); }
  }

  lemma BeginText<A, E>(d: Dialect<A, E>, s: State<A, E>, g: nat, h: nat)
    requires Structure(s) && Enabled(s, Begin(g)) && h < |s.handles| && TextOk(d, s, h)
    requires ApplyBegin(d, s, g).handles[h].rejected.None?
    ensures TextOk(d, ApplyBegin(d, s, g), h)
  {
    BeginStructure(d, s, g);
    if g == h { BeginOwnText(d, s, h); } else { TextFrame(d, s, ApplyBegin(d, s, g), h); }
  }

  lemma BeginOwnText<A, E>(d: Dialect<A, E>, s: State<A, E>, h: nat)
    requires Structure(s) && Enabled(s, Begin(h)) && s.failure.None? && TextOk(d, s, h)
    ensures TextOk(d, ApplyBegin(d, s, h), h)
  {
    var s' := ApplyBegin(d, s, h);
    var x, x' := s.handles[h], s'.handles[h];
    assert HandleOk(s, h);
    BeginKeepsOutstanding(d, s, h);
    assert Eventual(d, s', h) == Eventual(d, s, h);
    assert Progress(x') == Progress(x);
    TextRephase(d, s, s', h);
  }

  // A step that begins may put the buffer on the queue, and emits nothing new.
  lemma BeginKeepsOutstanding<A, E>(d: Dialect<A, E>, s: State<A, E>, h: nat)
    requires Structure(s) && Enabled(s, Begin(h)) && s.failure.None?
    ensures var s' := ApplyBegin(d, s, h);
            && Outstanding(s') == Outstanding(s)
            && s'.dirs == s.dirs && s'.tree == s.tree && s'.initial == s.initial && |s'.handles| == |s.handles|
            && (s'.pending == s.pending || s'.pending == [])
            && s'.handles[h].(phase := Idle) == s.handles[h].(phase := Idle)
            && (s'.handles[h].phase.Working? ==>
                  s'.handles[h].phase.k == 0 && s.handles[h].live.Some?
                  && s'.handles[h].phase.before == d.render(s.handles[h].live.value))
  {
    var s' := ApplyBegin(d, s, h);
    if s'.pending != s.pending {
      QueueIdsAppend(s.queue, EmitRequest(s.pending, ByHandle(h)));
      assert QueueIds(s.queue) + s.pending + [] == QueueIds(s.queue) + s.pending;
    }
  }

  lemma IssueReadText<A, E>(d: Dialect<A, E>, s: State<A, E>, g: nat, h: nat)
    requires Structure(s) && Enabled(s, IssueRead(g)) && h < |s.handles| && TextOk(d, s, h)
    ensures TextOk(d, Apply(d, s, IssueRead(g)), h)
  {
    IssueReadStructure(d, s, g);
    if g == h { IssueReadOwnText(d, s, h); } else { TextFrame(d, s, Apply(d, s, IssueRead(g)), h); }
  }

  lemma IssueReadOwnText<A, E>(d: Dialect<A, E>, s: State<A, E>, h: nat)
    requires Structure(s) && Enabled(s, IssueRead(h)) && TextOk(d, s, h)
    ensures TextOk(d, Apply(d, s, IssueRead(h)), h)
  {
    assert HandleOk(s, h);
    assert Outstanding(Apply(d, s, IssueRead(h))) == Outstanding(s) by { IssueReadStructure(d, s, h); }
  }

  lemma ChainText<A, E>(d: Dialect<A, E>, s: State<A, E>, g: nat, step: Step<E>, h: nat)
    requires Structure(s) && Enabled(s, Chain(g, step)) && h < |s.handles| && TextOk(d, s, h)
    ensures TextOk(d, Apply(d, s, Chain(g, step)), h)
  {
    if g == h { ChainOwnText(d, s, h, step); } else { TextFrame(d, s, Apply(d, s, Chain(g, step)), h); }
  }

  lemma ChainOwnText<A, E>(d: Dialect<A, E>, s: State<A, E>, h: nat, step: Step<E>)
    requires Structure(s) && Enabled(s, Chain(h, step)) && TextOk(d, s, h)
    ensures TextOk(d, Apply(d, s, Chain(h, step)), h)
  {
    var s' := Apply(d, s, Chain(h, step));
    var x, x' := s.handles[h], s'.handles[h];
    assert HandleOk(s, h);
    PrefixUnmoved(x.chain, step, x.pc);
    assert Eventual(d, s', h) == Eventual(d, s, h);
    assert Progress(x') == Progress(x);
  }

  // Any turn that rejects a handle leaves the other files' texts alone.
  lemma FailText<A, E>(d: Dialect<A, E>, s: State<A, E>, g: nat, reason: string, h: nat)
    requires Structure(s) && g < |s.handles| && h < |s.handles| && g != h && TextOk(d, s, h)
    ensures TextOk(d, Fail(s, g, reason), h)
  {
    TextFrame(d, s, Fail(s, g, reason), h);
  }

  lemma QueryEndText<A, E>(d: Dialect<A, E>, s: State<A, E>, g: nat, h: nat)
    requires Structure(s) && Enabled(s, Finish(g)) && CurrentStep(s, g).Query? && h < |s.handles| && TextOk(d, s, h)
    requires g == h ==> QueryPasses(d, s, h) && !MiddleWritten(d, s, h)
    ensures TextOk(d, ApplyQueryEnd(d, s, g), h)
  {
    if g == h { QueryOwnText(d, s, h); } else { TextFrame(d, s, ApplyQueryEnd(d, s, g), h); }
  }

  lemma QueryOwnText<A, E>(d: Dialect<A, E>, s: State<A, E>, h: nat)
    requires Structure(s) && Enabled(s, Finish(h)) && CurrentStep(s, h).Query? && TextOk(d, s, h)
    requires QueryPasses(d, s, h) && !MiddleWritten(d, s, h)
    ensures TextOk(d, ApplyQueryEnd(d, s, h), h)
  {
    var x, s' := s.handles[h], ApplyQueryEnd(d, s, h);
    assert HandleOk(s, h);
    HasOpStep(x.chain, x.pc);
    assert x.chain[x.pc].edits[..x.phase.k] == x.chain[x.pc].edits;
    assert Progress(s'.handles[h]) == Progress(x);
    PassingQueryIsExact(d, s, h);
  }

  // A query that passes its check leaves the file what its handle's finished steps make of it
  // if and only if no text of its middle has been written.
  lemma PassingQueryIsExact<A, E>(d: Dialect<A, E>, s: State<A, E>, h: nat)
    requires Structure(s) && Enabled(s, Finish(h)) && CurrentStep(s, h).Query? && TextOk(d, s, h)
    requires QueryPasses(d, s, h)
    ensures var s' := ApplyQueryEnd(d, s, h);
            && s'.handles[h].live.Some? && s'.handles[h].pc <= |s'.handles[h].chain|
            && (Eventual(d, s', h) == Standing(d, s', h) <==> !MiddleWritten(d, s, h))
  {
    var x, s' := s.handles[h], ApplyQueryEnd(d, s, h);
    assert HandleOk(s, h);
    HasOpStep(x.chain, x.pc);
    assert Outstanding(s') == Outstanding(s);
    assert Eventual(d, s', h) == Eventual(d, s, h);
  }

  // ---- the gate

  lemma DropText<A, E>(d: Dialect<A, E>, s: State<A, E>, h: nat, g: nat)
    requires Structure(s) && Enabled(s, Finish(h)) && CurrentStep(s, h).Op? && g < |s.handles|
    requires TextOk(d, s, g) && g != h
    ensures TextOk(d, Drop(d, s, h), g)
  {
    assert HandleOk(s, h);
    TextFrame(d, s, Drop(d, s, h), g);
  }

  // After the drained directive is dropped, the baseline is the file's text.
  lemma DropBaseline<A, E>(d: Dialect<A, E>, s: State<A, E>, h: nat)
    requires Structure(s) && Enabled(s, Finish(h)) && CurrentStep(s, h).Op? && TextOk(d, s, h)
    requires !Stale(d, s, h)
    ensures var mid := Drop(d, s, h);
            var x := mid.handles[h];
            && (x.open.None? ==> Eventual(d, mid, h) == Some(x.last))
            && (x.open.Some? ==>
                  && x.open.value in mid.pending && x.open.value < |mid.dirs|
                  && TextOf(d, mid.dirs[x.open.value], x.live) == d.render(x.live.value)
                  && Eventual(d, mid, h) == Some(d.render(x.live.value)))
  {
    var x := s.handles[h];
    assert HandleOk(s, h);
    OpenDecides(d, s, h, x.live);
    var mid := Drop(d, s, h);
    OverlayFrame(d, s.dirs, x.live, mid.dirs, x.live, h, Outstanding(s), s.tree[h]);
    DropStructure(d, s, h);
  }

  lemma GateOtherText<A, E>(d: Dialect<A, E>, s: State<A, E>, h: nat, g: nat)
    requires Structure(s) && Enabled(s, Finish(h)) && CurrentStep(s, h).Op? && g < |s.handles|
    requires TextOk(d, s, g) && g != h
    ensures TextOk(d, ApplyGate(d, s, h), g)
  {
    var mid, s' := Drop(d, s, h), ApplyGate(d, s, h);
    DropText(d, s, h, g);
    DropStructure(d, s, h);
    GateInTwo(d, s, h);
    var x := mid.handles[h];
    if x.open.Some? || d.render(x.live.value) == x.last {
      TextFrame(d, mid, s', g);
    } else {
      RegisterOtherText(d, mid, s', h, g);
    }
  }

  lemma RegisterOtherText<A, E>(d: Dialect<A, E>, s: State<A, E>, s': State<A, E>, h: nat, g: nat)
    requires Structure(s) && h < |s.handles| && g < |s.handles| && g != h && TextOk(d, s, g)
    requires s'.queue == s.queue && s'.initial == s.initial && s'.tree == s.tree && |s'.handles| == |s.handles|
    requires s'.pending == s.pending + [|s.dirs|] && s'.dirs == s.dirs + [Dir(h, None)]
    requires s'.handles[g] == s.handles[g]
    ensures TextOk(d, s', g)
  {
    var x := s.handles[g];
    assert HandleOk(s, g);
    var ids := Outstanding(s);
    assert Outstanding(s') == ids + [|s.dirs|];
    assert Outstanding(s')[..|ids|] == ids;
    OverlayFrame(d, s.dirs, x.live, s'.dirs, x.live, g, ids, s.tree[g]);
  }

  lemma GateOwnText<A, E>(d: Dialect<A, E>, s: State<A, E>, h: nat)
    requires Structure(s) && Enabled(s, Finish(h)) && CurrentStep(s, h).Op? && TextOk(d, s, h)
    requires !Stale(d, s, h)
    ensures TextOk(d, ApplyGate(d, s, h), h)
  {
    var x := s.handles[h];
    var s' := ApplyGate(d, s, h);
    var mid := Drop(d, s, h);
    assert HandleOk(s, h);
    GateInTwo(d, s, h);
    DropBaseline(d, s, h);
    HasOpStep(x.chain, x.pc);
    assert x.chain[x.pc].edits[..x.phase.k] == x.chain[x.pc].edits;
    assert s'.handles[h].applied == Progress(s'.handles[h]);
    GateEventual(d, s, h);
  }

  // The gate leaves the handle's print in store for the file.
  lemma GateEventual<A, E>(d: Dialect<A, E>, s: State<A, E>, h: nat)
    requires Structure(s) && Enabled(s, Finish(h)) && CurrentStep(s, h).Op? && TextOk(d, s, h)
    requires !Stale(d, s, h)
    ensures Eventual(d, ApplyGate(d, s, h), h) == Some(d.render(s.handles[h].live.value))
  {
    var s', mid := ApplyGate(d, s, h), Drop(d, s, h);
    assert HandleOk(s, h);
    GateInTwo(d, s, h);
    DropBaseline(d, s, h);
    if s'.pending != mid.pending {
      assert Outstanding(s') == Outstanding(mid) + [|mid.dirs|];
    } else {
      assert Outstanding(s') == Outstanding(mid);
    }
  }

  lemma GateText<A, E>(d: Dialect<A, E>, s: State<A, E>, g: nat, h: nat)
    requires Structure(s) && Enabled(s, Finish(g)) && CurrentStep(s, g).Op? && h < |s.handles| && TextOk(d, s, h)
    requires g == h ==> !Stale(d, s, h)
    ensures TextOk(d, ApplyGate(d, s, g), h)
  {
    if g == h { GateOwnText(d, s, h); } else { GateOtherText(d, s, g, h); }
  }

  // ---- landing

  lemma LandEmitText<A, E>(d: Dialect<A, E>, s: State<A, E>, s': State<A, E>, h: nat)
    requires Structure(s) && s.queue != [] && s.onWire && h < |s.handles| && TextOk(d, s, h)
    requires |s'.tree| == |s'.initial| == |s'.handles| == |s.handles|
    requires s'.initial == s.initial && s'.dirs == s.dirs && s'.pending == s.pending
    requires QueueIds(s'.queue) == QueueIds(s.queue[1..])
    requires s'.tree == WriteAll(s.tree, s.dirs, RequestIds(s.queue[0]))
    requires s'.handles[h].(phase := Idle) == s.handles[h].(phase := Idle)
    requires s'.handles[h].phase != s.handles[h].phase ==>
               Suspended(s'.handles[h].phase) && Suspended(s.handles[h].phase)
    ensures TextOk(d, s', h)
  {
    LandEmitEventual(d, s, s', h);
    assert HandleOk(s, h);
    if s'.handles[h].phase == s.handles[h].phase {
      assert s'.handles[h] == s.handles[h];
      TextSame(d, s, s', h);
    } else {
      assert Progress(s'.handles[h]) == Progress(s.handles[h]);
      TextRephase(d, s, s', h);
    }
  }

  // What is on the wire has been serialized.
  lemma WireIdsOk<A, E>(s: State<A, E>)
    requires Structure(s) && s.queue != [] && s.onWire
    ensures forall id :: id in RequestIds(s.queue[0]) ==>
              id < |s.dirs| && s.dirs[id].content.Some? && s.dirs[id].owner < |s.tree|
  {
    forall id | id in RequestIds(s.queue[0])
      ensures id < |s.dirs| && s.dirs[id].content.Some? && s.dirs[id].owner < |s.tree|
    {
      assert id in Outstanding(s);
    }
  }

  lemma LandEmitEventual<A, E>(d: Dialect<A, E>, s: State<A, E>, s': State<A, E>, h: nat)
    requires Structure(s) && s.queue != [] && s.onWire && h < |s.handles| && |s'.handles| == |s'.tree| == |s.handles|
    requires s'.dirs == s.dirs && s'.pending == s.pending && s'.handles[h].live == s.handles[h].live
    requires QueueIds(s'.queue) == QueueIds(s.queue[1..])
    requires s'.tree == WriteAll(s.tree, s.dirs, RequestIds(s.queue[0]))
    ensures Eventual(d, s', h) == Eventual(d, s, h)
  {
    assert Outstanding(s) == RequestIds(s.queue[0]) + Outstanding(s');
    WireIdsOk(s);
    LandedOverlay(d, s.tree, s.dirs, s.handles[h].live, h, RequestIds(s.queue[0]), Outstanding(s'));
  }

  // Landing some directives first changes nothing about what all of them come to.
  lemma LandedOverlay<A, E>(d: Dialect<A, E>, tree: seq<Option<string>>, dirs: seq<Dir>, live: Option<A>, h: nat,
                            ids: seq<nat>, rest: seq<nat>)
    requires h < |tree|
    requires forall id :: id in ids ==> id < |dirs| && dirs[id].content.Some? && dirs[id].owner < |tree|
    ensures Overlay(d, dirs, live, h, rest, WriteAll(tree, dirs, ids)[h])
            == Overlay(d, dirs, live, h, ids + rest, tree[h])
  {
    OverlayAppend(d, dirs, live, h, ids, rest, tree[h]);
    WriteAllIsOverlay(d, tree, dirs, ids, live, h);
  }

  lemma TextSame<A, E>(d: Dialect<A, E>, s: State<A, E>, s': State<A, E>, h: nat)
    requires |s.tree| == |s.initial| == |s.handles| && h < |s.handles| && TextOk(d, s, h)
    requires |s'.tree| == |s'.initial| == |s'.handles| == |s.handles|
    requires s'.initial == s.initial && s'.dirs == s.dirs && s'.pending == s.pending
    requires Eventual(d, s', h) == Eventual(d, s, h) && s'.handles[h] == s.handles[h]
    ensures TextOk(d, s', h)
  {
  }

  // The reply to a read is the file with everything its handle emitted.
  lemma ReplyIsEventual<A, E>(d: Dialect<A, E>, s: State<A, E>, h: nat)
    requires Structure(s) && s.queue != [] && s.queue[0] == ReadRequest(h) && h < |s.handles|
    ensures s.tree[h] == Eventual(d, s, h)
  {
    assert RequestOk(s, 0);
    assert Outstanding(s) == QueueIds(s.queue[1..]) + s.pending;
    OverlayNone(d, s.dirs, s.handles[h].live, h, Outstanding(s), s.tree[h]);
  }

  lemma LandReadOwnText<A, E>(d: Dialect<A, E>, s: State<A, E>, h: nat)
    requires Structure(s) && Enabled(s, Land) && s.queue[0] == ReadRequest(h) && h < |s.handles| && TextOk(d, s, h)
    requires ApplyLand(d, s).handles[h].rejected.None?
    ensures TextOk(d, ApplyLand(d, s), h)
  {
    var s' := ApplyLand(d, s);
    assert RequestOk(s, 0);
    assert HandleOk(s, h);
    assert Outstanding(s') == Outstanding(s);
    if CurrentStep(s, h).Read? { AnswerText(d, s, h); } else { SeedText(d, s, h); }
  }

  // The reply ends a read step.
  lemma AnswerText<A, E>(d: Dialect<A, E>, s: State<A, E>, h: nat)
    requires Structure(s) && Enabled(s, Land) && s.queue[0] == ReadRequest(h) && h < |s.handles| && TextOk(d, s, h)
    requires CurrentStep(s, h).Read? && HandleOk(s, h) && RequestOk(s, 0)
    requires Outstanding(ApplyLand(d, s)) == Outstanding(s)
    ensures TextOk(d, ApplyLand(d, s), h)
  {
    var s' := ApplyLand(d, s);
    HasOpStep(s.handles[h].chain, s.handles[h].pc);
    assert Eventual(d, s', h) == Eventual(d, s, h);
  }

  // The reply seeds the live AST of an op or a query.
  lemma SeedText<A, E>(d: Dialect<A, E>, s: State<A, E>, h: nat)
    requires Structure(s) && Enabled(s, Land) && s.queue[0] == ReadRequest(h) && h < |s.handles| && TextOk(d, s, h)
    requires !CurrentStep(s, h).Read? && HandleOk(s, h) && RequestOk(s, 0)
    requires ApplyLand(d, s).handles[h].rejected.None? && Outstanding(ApplyLand(d, s)) == Outstanding(s)
    ensures TextOk(d, ApplyLand(d, s), h)
  {
    var s', x := ApplyLand(d, s), s.handles[h];
    ReplyIsEventual(d, s, h);
    SeedEffect(d, s, h);
    assert x.live.None?;
    OverlayNone(d, s.dirs, s'.handles[h].live, h, Outstanding(s), s.tree[h]);
    SeededText(d, s, s', h);
  }

  lemma SeedEffect<A, E>(d: Dialect<A, E>, s: State<A, E>, h: nat)
    requires Enabled(s, Land) && s.queue[0] == ReadRequest(h) && h < |s.handles| == |s.tree|
             && ApplyLand(d, s).handles[h].rejected.None?
    requires !CurrentStep(s, h).Read?
    ensures var s' := ApplyLand(d, s);
            && s.tree[h].Some? && d.parse(s.tree[h].value).Some?
            && s'.tree == s.tree && s'.initial == s.initial && s'.dirs == s.dirs && |s'.handles| == |s.handles|
            && s'.handles[h] == s.handles[h].(live := d.parse(s.tree[h].value), last := s.tree[h].value,
                                              phase := Working(0, d.render(d.parse(s.tree[h].value).value)))
  {
  }

  // A handle that has just read its file for the first time.
  lemma SeededText<A, E>(d: Dialect<A, E>, s: State<A, E>, s': State<A, E>, h: nat)
    requires |s.tree| == |s.initial| == |s.handles| == |s'.tree| == |s'.initial| == |s'.handles| && h < |s.handles|
    requires TextOk(d, s, h) && s.handles[h].live.None? && s.handles[h].open.None?
    requires s.handles[h].pc < |s.handles[h].chain|
    requires s'.initial == s.initial && s.initial[h].Some? && d.parse(s.initial[h].value).Some?
    requires Eventual(d, s', h) == s.initial[h]
    requires s'.handles[h] == s.handles[h].(live := d.parse(s.initial[h].value), last := s.initial[h].value,
                                            phase := Working(0, d.render(d.parse(s.initial[h].value).value)))
    ensures TextOk(d, s', h)
  {
    var x' := s'.handles[h];
    assert !x'.chain[x'.pc].Read? ==> x'.chain[x'.pc].edits[..0] == [];
    assert Progress(x') == Edits(x'.chain[..x'.pc]) + [];
    assert Progress(x') == [];
  }

  lemma LandText<A, E>(d: Dialect<A, E>, s: State<A, E>, h: nat)
    requires Structure(s) && Enabled(s, Land) && h < |s.handles| && TextOk(d, s, h)
    requires ApplyLand(d, s).handles[h].rejected.None?
    ensures TextOk(d, ApplyLand(d, s), h)
  {
    match s.queue[0] {
      case EmitRequest(_, _) => LandEmitsText(d, s, h);
      case ReadRequest(g) => LandReadText(d, s, g, h);
      case CommitRequest =>
        assert Outstanding(ApplyLand(d, s)) == Outstanding(s);
        TextFrame(d, s, ApplyLand(d, s), h);
    }
  }

  lemma LandEmitsText<A, E>(d: Dialect<A, E>, s: State<A, E>, h: nat)
    requires Structure(s) && Enabled(s, Land) && s.queue[0].EmitRequest? && h < |s.handles| && TextOk(d, s, h)
    ensures TextOk(d, ApplyLand(d, s), h)
  {
    RequestOkHead(s);
    if s.queue[0].waiter.ByRun? { QueueIdsAppend(s.queue[1..], CommitRequest); }
    LandEmitText(d, s, ApplyLand(d, s), h);
  }

  // A reply moves its own handle only.
  lemma ReadLands<A, E>(d: Dialect<A, E>, s: State<A, E>, h: nat)
    requires Enabled(s, Land) && s.queue[0] == ReadRequest(h)
    ensures var s' := ApplyLand(d, s);
            && Outstanding(s') == Outstanding(s) && s'.pending == s.pending && s'.dirs == s.dirs
            && s'.tree == s.tree && s'.initial == s.initial && s'.lost == s.lost && |s'.handles| == |s.handles|
            && (forall g :: 0 <= g < |s.handles| && g != h ==> s'.handles[g] == s.handles[g])
            && (s.handles[h].rejected.Some? ==> s'.handles[h].rejected.Some?)
  {
  }

  lemma LandReadText<A, E>(d: Dialect<A, E>, s: State<A, E>, g: nat, h: nat)
    requires Structure(s) && Enabled(s, Land) && s.queue[0] == ReadRequest(g) && h < |s.handles| && TextOk(d, s, h)
    requires ApplyLand(d, s).handles[h].rejected.None?
    ensures TextOk(d, ApplyLand(d, s), h)
  {
    RequestOkHead(s);
    ReadLands(d, s, g);
    if g == h { LandReadOwnText(d, s, h); } else { TextFrame(d, s, ApplyLand(d, s), h); }
  }

  lemma DrainDoneText<A, E>(d: Dialect<A, E>, s: State<A, E>, h: nat)
    requires Structure(s) && DrainInv(s) && Enabled(s, DrainDone) && h < |s.handles| && TextOk(d, s, h)
    ensures TextOk(d, Apply(d, s, DrainDone), h)
  {
    DrainDoneStructure(d, s);
    TextFrame(d, s, Apply(d, s, DrainDone), h);
  }

  // A refused batch is lost on its own handles only.
  lemma RefuseText<A, E>(d: Dialect<A, E>, s: State<A, E>, s': State<A, E>, landed: nat, g: nat)
    requires Structure(s) && s.queue != [] && s.queue[0].EmitRequest? && s.onWire && landed <= |s.queue[0].ids|
    requires g < |s.handles| && TextOk(d, s, g) && g !in Owners(s.dirs, s.queue[0].ids)
    requires s'.queue == s.queue[1..] && s'.pending == s.pending && s'.dirs == s.dirs && s'.initial == s.initial
    requires s'.tree == WriteAll(s.tree, s.dirs, s.queue[0].ids[..landed]) && |s'.handles| == |s.handles|
    requires s'.handles[g] == s.handles[g]
    ensures TextOk(d, s', g)
  {
    var ids, live := s.queue[0].ids, s.handles[g].live;
    assert NoneOwned(s.dirs, ids, g) by {
      forall id | id in ids && id < |s.dirs|
        ensures s.dirs[id].owner != g
      {
        assert s.dirs[id].owner in Owners(s.dirs, ids);
      }
    }
    WriteAllSpares(s.tree, s.dirs, ids[..landed], g);
    assert Outstanding(s) == ids + Outstanding(s');
    OverlayAppend(d, s.dirs, live, g, ids, Outstanding(s'), s.tree[g]);
    OverlayNone(d, s.dirs, live, g, ids, s.tree[g]);
    TextSame(d, s, s', g);
  }

  lemma {:induction false} WriteAllSpares(tree: seq<Option<string>>, dirs: seq<Dir>, ids: seq<nat>, h: nat)
    requires h < |tree| && NoneOwned(dirs, ids, h)
    ensures WriteAll(tree, dirs, ids)[h] == tree[h]
  {
    if ids != [] { WriteAllSpares(tree, dirs, ids[..|ids| - 1], h); }
  }

  lemma LandFailsText<A, E>(d: Dialect<A, E>, s: State<A, E>, reason: string, landed: nat, h: nat)
    requires Structure(s) && Enabled(s, LandFails(reason, landed)) && h < |s.handles| && TextOk(d, s, h)
    requires Sound(ApplyLandFails(s, reason, landed), h) && !ApplyLandFails(s, reason, landed).stage.Discarded?
    ensures TextOk(d, ApplyLandFails(s, reason, landed), h)
  {
    var s' := ApplyLandFails(s, reason, landed);
    RequestOkHead(s);
    if s.queue[0].ReadRequest? {
      assert Outstanding(s') == Outstanding(s);
      TextFrame(d, s, s', h);
    } else {
      RefuseText(d, s, s', landed, h);
    }
  }

  // A rejected handle stays rejected, a lost directive stays lost.
  lemma SoundBefore<A, E>(d: Dialect<A, E>, s: State<A, E>, a: Action<E>, h: nat)
    requires Enabled(s, a) && h < |s.handles| && Sound(Apply(d, s, a), h)
    ensures Sound(s, h)
  {
  }

  lemma KeepsText<A, E>(d: Dialect<A, E>, s: State<A, E>, a: Action<E>, h: nat)
    requires Base(s) && Enabled(s, a) && h < |s.handles| && TextOk(d, s, h)
    requires OpKeeps(d, s, a, h) && QueryKeeps(d, s, a, h) && !s.stage.Discarded?
    requires var s' := Apply(d, s, a);
             |s'.tree| == |s'.initial| == |s'.handles| && Sound(s', h) && !s'.stage.Discarded?
    ensures TextOk(d, Apply(d, s, a), h)
  {
    match a {
      case Chain(g, step) => ChainText(d, s, g, step, h);
      case Begin(g) => BeginText(d, s, g, h);
      case IssueRead(g) => IssueReadText(d, s, g, h);
      case Edit(g) => EditText(d, s, g, h);
      case Throw(g, reason) => FailText(d, s, g, reason, h);
      case Finish(g) => if CurrentStep(s, g).Op? { GateText(d, s, g, h); } else { QueryEndText(d, s, g, h); }
      case Serialize => SerializeText(d, s, h);
      case Land => LandText(d, s, h);
      case LandFails(reason, landed) => LandFailsText(d, s, reason, landed, h);
      case Settle(g) => SettleText(d, s, g, h);
      case SettleFails(_, _) => TextFrame(d, s, Apply(d, s, a), h);
      case Return => TextFrame(d, s, Apply(d, s, a), h);
      case AuthorThrow(_) =>
      case DrainDone => DrainDoneText(d, s, h);
    }
  }

  // A failed or discarded run never becomes clean again.
  lemma StaysUnclean<A, E>(d: Dialect<A, E>, s: State<A, E>, a: Action<E>)
    requires DrainInv(s) && Enabled(s, a) && !Clean(s)
    ensures !Clean(Apply(d, s, a))
  {
    if s.stage.Discarded? { VerdictIsFinal(d, s, a); }
  }

  // ---------------------------------------------------------------- answers

  lemma AnswerFrame<A, E>(d: Dialect<A, E>, s: State<A, E>, s': State<A, E>, log: ReadLog)
    requires AnswerOk(d, s, log)
    requires s'.initial == s.initial && |s'.handles| == |s.handles|
    requires s.handles[log.h].chain <= s'.handles[log.h].chain
    ensures AnswerOk(d, s', log)
  {
    assert s'.handles[log.h].chain[..log.position] == s.handles[log.h].chain[..log.position];
  }

  ghost predicate Grows<A, E>(s: State<A, E>, s': State<A, E>) {
    && s'.initial == s.initial && |s'.handles| == |s.handles|
    && (forall h :: 0 <= h < |s.handles| ==> s.handles[h].chain <= s'.handles[h].chain)
  }

  lemma LandGrows<A, E>(d: Dialect<A, E>, s: State<A, E>)
    requires Enabled(s, Land)
    ensures Grows(s, ApplyLand(d, s))
    ensures s.queue[0].ReadRequest? && CurrentStep(s, s.queue[0].h).Read? ==>
              |ApplyLand(d, s).answers| == |s.answers| + 1 && s.answers <= ApplyLand(d, s).answers
              && (ApplyLand(d, s).answers[|s.answers|].intact <==> s.queue[0].h !in s.lost && !s.stage.Discarded?)
    ensures !(s.queue[0].ReadRequest? && CurrentStep(s, s.queue[0].h).Read?) ==> ApplyLand(d, s).answers == s.answers
  {
  }

  lemma OthersGrow<A, E>(d: Dialect<A, E>, s: State<A, E>, a: Action<E>)
    requires Enabled(s, a) && !a.Land? && !a.Finish? && !a.LandFails?
    ensures Grows(s, Apply(d, s, a)) && Apply(d, s, a).answers == s.answers
  {
  }

  lemma FinishGrows<A, E>(d: Dialect<A, E>, s: State<A, E>, a: Action<E>)
    requires Enabled(s, a) && (a.Finish? || a.LandFails?)
    ensures Grows(s, Apply(d, s, a)) && Apply(d, s, a).answers == s.answers
  {
  }

  lemma StandingIsWriteThrough<A, E>(d: Dialect<A, E>, s: State<A, E>, h: nat)
    requires h < |s.handles| && |s.tree| == |s.initial| == |s.handles| && TextOk(d, s, h)
    requires !s.handles[h].phase.Working?
    ensures Eventual(d, s, h) == WriteThrough(d, s.initial[h], s.handles[h].chain[..s.handles[h].pc])
  {
    assert Progress(s.handles[h]) == Edits(s.handles[h].chain[..s.handles[h].pc]);
  }

  lemma KeepsAnswers<A, E>(d: Dialect<A, E>, s: State<A, E>, a: Action<E>, h: nat)
    requires Inv(d, s, h) && Enabled(s, a)
    ensures Answers(d, Apply(d, s, a), h)
  {
    var s' := Apply(d, s, a);
    if a.Land? {
      LandGrows(d, s);
    } else if a.Finish? || a.LandFails? {
      FinishGrows(d, s, a);
    } else {
      OthersGrow(d, s, a);
    }
    forall i | 0 <= i < |s'.answers| && s'.answers[i].h == h && s'.answers[i].intact
      ensures AnswerOk(d, s', s'.answers[i])
    {
      if i < |s.answers| {
        AnswerFrame(d, s, s', s.answers[i]);
      } else {
        NewAnswer(d, s);
      }
    }
  }

  // A read answers the file with every op chained before it written through, whatever other
  // handles have run into.
  lemma NewAnswer<A, E>(d: Dialect<A, E>, s: State<A, E>)
    requires Structure(s) && Enabled(s, Land) && s.queue[0].ReadRequest?
    requires CurrentStep(s, s.queue[0].h).Read? && !s.stage.Discarded? && s.queue[0].h !in s.lost
    requires Text(d, s, s.queue[0].h)
    ensures AnswerOk(d, ApplyLand(d, s), ApplyLand(d, s).answers[|s.answers|])
  {
    var h := s.queue[0].h;
    RequestOkHead(s);
    assert Sound(s, h) && TextOk(d, s, h);
    ReplyIsEventual(d, s, h);
    StandingIsWriteThrough(d, s, h);
  }

  // ---------------------------------------------------------------- every run

  // The two premises on handle `h`, whatever the other handles do. No op of it ends while its
  // buffered directive holds an older text.
  ghost predicate IsFreshRun<A, E>(d: Dialect<A, E>, s: State<A, E>, actions: seq<Action<E>>, h: nat)
    decreases |actions|
  {
    IsRun(d, s, actions) &&
    (actions == [] ||
     (IsFreshRun(d, s, actions[..|actions| - 1], h) &&
      OpKeeps(d, Exec(d, s, actions[..|actions| - 1]), actions[|actions| - 1], h)))
  }

  // No query of it that passes has had a text of its middle written.
  ghost predicate IsSteadyRun<A, E>(d: Dialect<A, E>, s: State<A, E>, actions: seq<Action<E>>, h: nat)
    decreases |actions|
  {
    IsRun(d, s, actions) &&
    (actions == [] ||
     (IsSteadyRun(d, s, actions[..|actions| - 1], h) &&
      QueryKeeps(d, Exec(d, s, actions[..|actions| - 1]), actions[|actions| - 1], h)))
  }

  lemma KeepsInv<A, E>(d: Dialect<A, E>, s: State<A, E>, a: Action<E>, h: nat)
    requires Inv(d, s, h) && Enabled(s, a) && OpKeeps(d, s, a, h) && QueryKeeps(d, s, a, h)
    ensures Inv(d, Apply(d, s, a), h)
  {
    var s' := Apply(d, s, a);
    KeepsBase(d, s, a);
    KeepsFiles(d, s, a);
    if Sound(s', h) && !s'.stage.Discarded? {
      SoundBefore(d, s, a, h);
      if s.stage.Discarded? { VerdictIsFinal(d, s, a); }
      KeepsText(d, s, a, h);
    }
    KeepsAnswers(d, s, a, h);
  }

  lemma InitInv<A, E>(d: Dialect<A, E>, files: seq<Option<string>>, h: nat)
    requires h < |files|
    ensures Inv(d, Init<A, E>(files), h)
  {
  }

  lemma {:induction false} RunKeepsInv<A, E>(
      d: Dialect<A, E>, files: seq<Option<string>>, actions: seq<Action<E>>, h: nat)
    requires IsFreshRun(d, Init(files), actions, h) && IsSteadyRun(d, Init(files), actions, h) && h < |files|
    ensures Inv(d, Exec(d, Init(files), actions), h)
    decreases |actions|
  {
    if actions == [] {
      InitInv(d, files, h);
    } else {
      var front := actions[..|actions| - 1];
      RunKeepsInv(d, files, front, h);
      KeepsInv(d, Exec(d, Init(files), front), actions[|actions| - 1], h);
    }
  }

  // ---------------------------------------------------------------- nothing chained late, nothing stale

  lemma IncreasingApart(front: seq<nat>, mid: seq<nat>, back: seq<nat>)
    requires Increasing(front + mid + back)
    ensures forall i, j :: 0 <= i < |front| && 0 <= j < |back| ==> front[i] < back[j]
  {
    var all := front + mid + back;
    forall i, j | 0 <= i < |front| && 0 <= j < |back| ensures front[i] < back[j] {
      assert all[i] == front[i] && all[|front| + |mid| + j] == back[j];
    }
  }

  lemma DisjointOutstanding<A, E>(s: State<A, E>, id: nat)
    requires Shape(s) && s.queue != [] && id in s.pending
    ensures id !in RequestIds(s.queue[0])
  {
    var head, rest := RequestIds(s.queue[0]), QueueIds(s.queue[1..]);
    assert Outstanding(s) == head + rest + s.pending;
    IncreasingApart(head, rest, s.pending);
  }

  // A buffered directive keeps its getter until its handle settles.
  ghost predicate Unforced<A, E>(s: State<A, E>, h: nat) {
    h < |s.handles| &&
    var x := s.handles[h];
    x.open.Some? && x.open.value in s.pending && x.open.value < |s.dirs| && !x.settlement.Settled? ==>
      s.dirs[x.open.value].content.None?
  }

  lemma KeepsUnforced<A, E>(d: Dialect<A, E>, s: State<A, E>, a: Action<E>, h: nat)
    requires Structure(s) && Enabled(s, a) && Unforced(s, h)
    ensures Unforced(Apply(d, s, a), h)
  {
    assert HandleOk(s, h);
    if a.Finish? && CurrentStep(s, a.h).Op? {
      UnforcedGate(d, s, a.h, h);
    } else if a.Serialize? {
      var x := s.handles[h];
      if x.open.Some? && x.open.value in s.pending { DisjointOutstanding(s, x.open.value); }
    } else if a.Settle? {
      UnforcedSettle(d, s, a.h, h);
    } else if a.Land? || a.LandFails? {
      UnforcedLand(d, s, a, h);
    } else {
      UnforcedRest(d, s, a, h);
    }
  }

  lemma UnforcedGate<A, E>(d: Dialect<A, E>, s: State<A, E>, g: nat, h: nat)
    requires Structure(s) && Enabled(s, Finish(g)) && CurrentStep(s, g).Op? && Unforced(s, h) && HandleOk(s, h)
    ensures Unforced(ApplyGate(d, s, g), h)
  {
    assert HandleOk(s, g);
  }

  lemma UnforcedSettle<A, E>(d: Dialect<A, E>, s: State<A, E>, g: nat, h: nat)
    requires Structure(s) && Enabled(s, Settle(g)) && Unforced(s, h) && HandleOk(s, h)
    ensures Unforced(Apply(d, s, Settle(g)), h)
  {
    assert HandleOk(s, g);
  }

  lemma UnforcedLand<A, E>(d: Dialect<A, E>, s: State<A, E>, a: Action<E>, h: nat)
    requires Enabled(s, a) && (a.Land? || a.LandFails?) && Unforced(s, h)
    ensures Unforced(Apply(d, s, a), h)
  {
  }

  lemma UnforcedRest<A, E>(d: Dialect<A, E>, s: State<A, E>, a: Action<E>, h: nat)
    requires Enabled(s, a) && Unforced(s, h)
    requires !(a.Finish? && CurrentStep(s, a.h).Op?) && !a.Serialize? && !a.Settle? && !a.Land? && !a.LandFails?
    ensures Unforced(Apply(d, s, a), h)
  {
  }

  lemma {:induction false} RunKeepsUnforced<A, E>(
      d: Dialect<A, E>, files: seq<Option<string>>, actions: seq<Action<E>>, h: nat)
    requires IsRun(d, Init(files), actions) && h < |files|
    ensures Unforced(Exec(d, Init(files), actions), h)
    decreases |actions|
  {
    if actions != [] {
      var front := actions[..|actions| - 1];
      RunKeepsUnforced(d, files, front, h);
      RunKeepsBase(d, files, front);
      KeepsUnforced(d, Exec(d, Init(files), front), actions[|actions| - 1], h);
    }
  }

  // A settled handle on which nothing is chained late has no op left to end.
  lemma PromptOpKeeps<A, E>(d: Dialect<A, E>, s: State<A, E>, a: Action<E>, h: nat)
    requires DrainInv(s) && Marked(s, h) && Unforced(s, h) && Enabled(s, a)
    ensures OpKeeps(d, s, a, h)
  {
    assert DrainOk(s, h);
  }

  // Only a step chained late can make an op end stale.
  lemma {:induction false} PromptRunIsFresh<A, E>(
      d: Dialect<A, E>, files: seq<Option<string>>, actions: seq<Action<E>>, h: nat)
    requires IsPromptRun(d, Init(files), actions, h) && h < |files|
    ensures IsFreshRun(d, Init(files), actions, h)
    decreases |actions|
  {
    if actions != [] {
      var front := actions[..|actions| - 1];
      PromptRunIsFresh(d, files, front, h);
      PromptMark(d, files, front, h);
      RunKeepsDrain(d, files, front);
      RunKeepsUnforced(d, files, front, h);
      PromptOpKeeps(d, Exec(d, Init(files), front), actions[|actions| - 1], h);
    }
  }
}

// The exact condition under which one gate keeps an op's edit, and what breaks it.
module HandlePremises {
  import opened Prelude
  import opened HandleMachine
  import opened HandleInvariant
  import opened HandleProofs

  // ---------------------------------------------------------------- one gate, exactly

  // Before the gate, the open directive (or the baseline) is what the file will hold.
  ghost predicate BaselineHolds<A, E>(d: Dialect<A, E>, s: State<A, E>, h: nat)
    requires h < |s.handles| && h < |s.tree|
  {
    var x := s.handles[h];
    && (x.open.None? ==> Eventual(d, s, h) == Some(x.last))
    && (x.open.Some? ==> x.open.value < |s.dirs| && Eventual(d, s, h) == Some(TextOf(d, s.dirs[x.open.value], x.live)))
  }

  // The op's print reaches the file if and only if the open directive is not stale.
  lemma GateKeepsEditExactly<A, E>(d: Dialect<A, E>, s: State<A, E>, h: nat)
    requires Structure(s) && Enabled(s, Finish(h)) && CurrentStep(s, h).Op? && BaselineHolds(d, s, h)
    ensures var s' := ApplyGate(d, s, h);
            Eventual(d, s', h) == Some(d.render(s.handles[h].live.value)) <==> !Stale(d, s, h)
  {
    var x := s.handles[h];
    var s', mid := ApplyGate(d, s, h), Drop(d, s, h);
    assert HandleOk(s, h);
    GateInTwo(d, s, h);
    DropStructure(d, s, h);
    OverlayFrame(d, s.dirs, x.live, mid.dirs, x.live, h, Outstanding(s), s.tree[h]);
    assert Eventual(d, mid, h) == Eventual(d, s, h);
    if s'.pending != mid.pending {
      assert Outstanding(s') == Outstanding(mid) + [|mid.dirs|];
    } else {
      assert Outstanding(s') == Outstanding(mid);
    }
  }

  // Measuring the buffer, as the scaffold expander does, evaluates every pending getter.
  function Measure<A, E>(d: Dialect<A, E>, s: State<A, E>): State<A, E> {
    s.(dirs := Resolve(d, s, s.pending))
  }

  // Measuring between two ops of a handle loses the second one's edit: the file keeps the
  // first one's print.
  lemma MeasuringLosesTheNextEdit<A, E>(d: Dialect<A, E>, s: State<A, E>, h: nat)
    requires Structure(s) && Enabled(s, Edit(h)) && CurrentStep(s, h).Op? && BaselineHolds(d, s, h)
    requires s.handles[h].phase.k + 1 == |CurrentStep(s, h).edits|
    requires s.handles[h].open.Some? && s.handles[h].open.value in s.pending
    requires s.dirs[s.handles[h].open.value].content.None?
    requires d.render(Apply(d, s, Edit(h)).handles[h].live.value) != d.render(s.handles[h].live.value)
    ensures var measured := Measure(d, s);
            Enabled(measured, Edit(h)) && var edited := Apply(d, measured, Edit(h));
            Enabled(edited, Finish(h)) && var s' := ApplyGate(d, edited, h);
            && Eventual(d, s', h) == Some(d.render(s.handles[h].live.value))
            && Eventual(d, s', h) != Some(d.render(s'.handles[h].live.value))
  {
    var measured := Measure(d, s);
    var edited := Apply(d, measured, Edit(h));
    var x := s.handles[h];
    assert HandleOk(s, h);
    ResolveStructure(d, s, s.pending, measured);
    EditStructure(d, measured, h);
    assert Outstanding(edited) == Outstanding(s);
    assert x.open.value in Outstanding(s);
    OverlayNewest(d, edited.dirs, edited.handles[h].live, h, Outstanding(s), s.tree[h], x.open.value);
    GateKeepsEditExactly(d, edited, h);
    assert ApplyGate(d, edited, h).pending == edited.pending;
    assert ApplyGate(d, edited, h).dirs == edited.dirs;
    assert Outstanding(ApplyGate(d, edited, h)) == Outstanding(s);
  }

  // A query that changes the print and changes it back passes its check, but a batch
  // serialized in between has written the text it had in the middle.
  lemma PassingQueryLeavesItsMiddle<A, E>(d: Dialect<A, E>, s: State<A, E>, h: nat)
    requires Structure(s) && Enabled(s, Edit(h)) && CurrentStep(s, h).Query? && BaselineHolds(d, s, h)
    requires s.handles[h].phase.k + 1 == |CurrentStep(s, h).edits|
    requires s.handles[h].open.Some? && s.dirs[s.handles[h].open.value].content.None?
    requires d.render(s.handles[h].live.value) != s.handles[h].phase.before
    requires d.render(Apply(d, s, Edit(h)).handles[h].live.value) == s.handles[h].phase.before
    ensures var sent := s.(dirs := Resolve(d, s, [s.handles[h].open.value]));
            Enabled(sent, Edit(h)) && var restored := Apply(d, sent, Edit(h));
            Enabled(restored, Finish(h)) && var s' := ApplyQueryEnd(d, restored, h);
            && s'.handles[h].rejected.None? && s'.handles[h].pc == s.handles[h].pc + 1
            && Eventual(d, s', h) == Some(d.render(s.handles[h].live.value))
            && Eventual(d, s', h) != Some(d.render(s'.handles[h].live.value))
  {
    var o := s.handles[h].open.value;
    assert HandleOk(s, h);
    var sent := s.(dirs := Resolve(d, s, [o]));
    ResolveStructure(d, s, [o], sent);
    var restored := Apply(d, sent, Edit(h));
    assert Outstanding(restored) == Outstanding(s);
    OverlayNewest(d, restored.dirs, restored.handles[h].live, h, Outstanding(s), s.tree[h], o);
    var s' := ApplyQueryEnd(d, restored, h);
    assert Outstanding(s') == Outstanding(s);
  }
}

// What every run of the wire client keeps, whatever the timeouts, stale, foreign or junk
// frames and channel faults; and what an honest host adds to that.
module EngineClientProofs {
  import opened Prelude
  import opened RequestIds
  import opened EngineClient

  // Ids are minted without gaps and written in order.
  ghost predicate Numbered(c: Client) {
    && c.nextRequestId == |c.calls| == |c.written|
    && (forall i :: 0 <= i < |c.calls| ==> c.calls[i].id == IdOf(i) && c.written[i] == IdOf(i))
  }

  ghost predicate CallsOk(c: Client) {
    && (forall i :: 0 <= i < |c.calls| - 1 ==> !c.calls[i].outcome.Waiting?)
    && (forall i :: 0 <= i < |c.calls| ==> (c.calls[i].abandoned <==> c.calls[i].outcome.TimedOut?))
    && (forall i :: 0 <= i < |c.calls| && c.calls[i].outcome.Resolved? ==>
          Matches(c.calls[i].outcome.frame, c.calls[i].id))
  }

  // At most one channel read is in flight, and it is the dangling one. A settled read stays
  // dangling only while parked for a successor.
  ghost predicate ReadsOk(c: Client) {
    && (c.danglingRead.Some? ==> c.danglingRead.value < |c.channel| && !c.channel[c.danglingRead.value].Rejected?)
    && (forall r :: 0 <= r < |c.channel| && c.channel[r].InFlight? ==> c.danglingRead == Some(r))
    && (c.danglingRead.Some? && c.channel[c.danglingRead.value].Fulfilled? ==> c.waiters == [] && !Busy(c))
    && (c.danglingRead.Some? && c.channel[c.danglingRead.value].InFlight? ==> c.waiters != [])
    && (c.danglingRead.None? ==> c.waiters == [] && !Busy(c))
  }

  // The loops awaiting the read: abandoned ones first, then the live one if there is one.
  ghost predicate WaitersOk(c: Client) {
    && (forall i :: 0 <= i < |c.waiters| ==> c.waiters[i] < |c.calls|)
    && (forall i :: 0 <= i < |c.waiters| ==>
          c.calls[c.waiters[i]].abandoned || (Busy(c) && i == |c.waiters| - 1 && c.waiters[i] == |c.calls| - 1))
    && (Busy(c) ==> c.waiters != [] && c.waiters[|c.waiters| - 1] == |c.calls| - 1)
  }

  function Frames(consumed: seq<Consumed>): seq<Frame> {
    seq(|consumed|, i requires 0 <= i < |consumed| => consumed[i].frame)
  }

  function Parked(c: Client): seq<Frame> {
    if c.danglingRead.Some? && c.danglingRead.value < |c.channel| && c.channel[c.danglingRead.value].Fulfilled?
    then [c.channel[c.danglingRead.value].frame] else []
  }

  ghost predicate ClientInv(c: Client) {
    Numbered(c) && CallsOk(c) && ReadsOk(c) && WaitersOk(c)
  }

  // A response taken by a call is its own, or a stale answer to an earlier call that had
  // already ended; never a later call's.
  ghost predicate TakenOk(c: Client, t: Consumed) {
    && t.call < |c.calls|
    && (t.frame.Response? && t.frame.id.Some? ==> t.frame.id.value in c.written)
    && (t.frame.Response? && t.frame.id.Some? ==>
          forall j :: 0 <= j < |c.calls| && t.frame.id.value == IdOf(j) ==>
            j <= t.call && (j == t.call ==> c.calls[j].outcome == Resolved(t.frame))
            && (j < t.call ==> !c.calls[j].outcome.Waiting?))
  }

  // The answer to `id` still on its way.
  ghost predicate OnItsWay(w: World, id: string) {
    || (exists i :: 0 <= i < |w.inbound| && w.inbound[i].Arrived? && Matches(w.inbound[i].frame, id))
    || (exists i :: 0 <= i < |Parked(w.client)| && Matches(Parked(w.client)[i], id))
  }

  ghost predicate AnswerIsWritten(w: World, d: Delivery) {
    d.Arrived? && d.frame.Response? && d.frame.id.Some? ==> d.frame.id.value in w.client.written
  }

  ghost predicate Conserved(w: World) {
    w.arrived == Frames(w.client.consumed) + Parked(w.client)
  }

  ghost predicate AllTaken(c: Client) {
    forall i :: 0 <= i < |c.consumed| ==> TakenOk(c, c.consumed[i])
  }

  ghost predicate AllWritten(w: World) {
    && (forall i :: 0 <= i < |w.inbound| ==> AnswerIsWritten(w, w.inbound[i]))
    && (forall i :: 0 <= i < |Parked(w.client)| ==> AnswerIsWritten(w, Arrived(Parked(w.client)[i])))
    && (forall id :: id in w.answered ==> id in w.client.written)
  }

  ghost predicate AnswerPending(w: World) {
    Busy(w.client) && w.client.calls[|w.client.calls| - 1].id in w.answered ==>
      OnItsWay(w, w.client.calls[|w.client.calls| - 1].id)
  }

  // What holds whatever the host sends.
  ghost predicate Inv(w: World) {
    ClientInv(w.client) && Conserved(w)
  }

  // What holds besides with an honest host.
  ghost predicate HonestInv(w: World) {
    Inv(w) && AllTaken(w.client) && AllWritten(w) && AnswerPending(w)
  }

  // ---------------------------------------------------------------- the client alone

  lemma {:induction false} ResumeAbandoned(c: Client, loops: seq<nat>, frame: Frame)
    requires forall i :: 0 <= i < |loops| ==> loops[i] < |c.calls| && c.calls[loops[i]].abandoned
    ensures Resume(c, loops, frame) == c
  {
    if loops != [] { ResumeAbandoned(c, loops[1..], frame); }
  }

  lemma {:induction false} ResumeAppend(c: Client, front: seq<nat>, back: seq<nat>, frame: Frame)
    ensures Resume(c, front + back, frame) == Resume(Resume(c, front, frame), back, frame)
    decreases |front|
  {
    if front == [] {
      assert front + back == back;
    } else {
      assert (front + back)[1..] == front[1..] + back;
      var next := if front[0] < |c.calls| && !c.calls[front[0]].abandoned then Take(c, front[0], frame) else c;
      ResumeAppend(next, front[1..], back, frame);
    }
  }

  // A fulfilled read is handed to exactly one loop: the live one, or nobody.
  lemma DeliverArrived(c: Client, frame: Frame)
    requires ClientInv(c) && Awaiting(c)
    ensures var r := c.danglingRead.value;
            var settled := c.(channel := c.channel[r := Fulfilled(frame)], waiters := []);
            Deliver(c, Arrived(frame)) == if Busy(c) then Take(settled, |c.calls| - 1, frame) else settled
  {
    var settled := c.(channel := c.channel[c.danglingRead.value := Fulfilled(frame)], waiters := []);
    if Busy(c) {
      var n := |c.waiters| - 1;
      var front, back := c.waiters[..n], c.waiters[n..];
      assert c.waiters == front + back;
      assert back == [|c.calls| - 1];
      ResumeAppend(settled, front, back, frame);
      ResumeAbandoned(settled, front, frame);
      assert back[1..] == [];
      assert Resume(settled, back, frame) == Resume(Take(settled, |c.calls| - 1, frame), back[1..], frame);
    } else {
      ResumeAbandoned(settled, c.waiters, frame);
    }
  }

  lemma {:induction false} ResumeBrokenAbandoned(c: Client, loops: seq<nat>, fault: string)
    requires forall i :: 0 <= i < |loops| ==> loops[i] < |c.calls| && c.calls[loops[i]].abandoned
    ensures ResumeBroken(c, loops, fault) == if loops == [] then c else c.(danglingRead := None)
    decreases |loops|
  {
    if loops != [] { ResumeBrokenAbandoned(c.(danglingRead := None), loops[1..], fault); }
  }

  lemma {:induction false} ResumeBrokenAppend(c: Client, front: seq<nat>, back: seq<nat>, fault: string)
    ensures ResumeBroken(c, front + back, fault) == ResumeBroken(ResumeBroken(c, front, fault), back, fault)
    decreases |front|
  {
    if front == [] {
      assert front + back == back;
    } else {
      assert (front + back)[1..] == front[1..] + back;
      var cleared := c.(danglingRead := None);
      var next :=
        if front[0] < |c.calls| && !c.calls[front[0]].abandoned then Settle(cleared, front[0], Faulted(fault))
        else cleared;
      ResumeBrokenAppend(next, front[1..], back, fault);
    }
  }

  lemma DeliverBroken(c: Client, fault: string)
    requires ClientInv(c) && Awaiting(c)
    ensures var r := c.danglingRead.value;
            var settled := c.(channel := c.channel[r := Rejected(fault)], waiters := [], danglingRead := None);
            Deliver(c, Broken(fault)) == if Busy(c) then Settle(settled, |c.calls| - 1, Faulted(fault)) else settled
  {
    var start := c.(channel := c.channel[c.danglingRead.value := Rejected(fault)], waiters := []);
    if Busy(c) {
      var n := |c.waiters| - 1;
      var front, back := c.waiters[..n], c.waiters[n..];
      assert c.waiters == front + back;
      assert back == [|c.calls| - 1] && back[1..] == [];
      ResumeBrokenAppend(start, front, back, fault);
      ResumeBrokenAbandoned(start, front, fault);
    } else {
      ResumeBrokenAbandoned(start, c.waiters, fault);
    }
  }

  lemma AskKeeps(c: Client, k: nat)
    requires Numbered(c) && CallsOk(c) && Busy(c) && k == |c.calls| - 1
    requires c.waiters == [] && c.danglingRead == None && forall r :: 0 <= r < |c.channel| ==> !c.channel[r].InFlight?
    ensures ClientInv(Ask(c, k)) && Parked(Ask(c, k)) == []
  {
  }

  lemma TakeKeeps(c: Client, frame: Frame)
    requires Numbered(c) && CallsOk(c) && Busy(c) && c.waiters == []
    requires forall r :: 0 <= r < |c.channel| ==> !c.channel[r].InFlight?
    ensures ClientInv(Take(c, |c.calls| - 1, frame)) && Parked(Take(c, |c.calls| - 1, frame)) == []
    ensures Busy(Take(c, |c.calls| - 1, frame)) <==> !Matches(frame, c.calls[|c.calls| - 1].id)
  {
    var k := |c.calls| - 1;
    var taken := c.(danglingRead := None, consumed := c.consumed + [Consumed(k, frame)]);
    if !Matches(frame, c.calls[k].id) { AskKeeps(taken, k); }
  }

  lemma DeliverKeeps(c: Client, delivery: Delivery)
    requires ClientInv(c) && Awaiting(c)
    ensures ClientInv(Deliver(c, delivery))
  {
    match delivery {
      case Arrived(frame) =>
        ArrivedKeeps(c, frame);
      case Broken(fault) => DeliverBroken(c, fault);
    }
  }

  lemma ArrivedKeeps(c: Client, frame: Frame)
    requires ClientInv(c) && Awaiting(c)
    ensures ClientInv(Deliver(c, Arrived(frame)))
  {
    DeliverArrived(c, frame);
    if Busy(c) {
      TakeKeeps(c.(channel := c.channel[c.danglingRead.value := Fulfilled(frame)], waiters := []), frame);
    }
  }

  // The client with a new call written, its answer still to be sought.
  function Minted(c: Client): Client {
    c.(nextRequestId := c.nextRequestId + 1, written := c.written + [IdOf(c.nextRequestId)],
       calls := c.calls + [Call(IdOf(c.nextRequestId), false, Waiting)])
  }

  lemma MintedOk(c: Client)
    requires ClientInv(c) && !Busy(c)
    ensures Numbered(Minted(c)) && CallsOk(Minted(c)) && Busy(Minted(c)) && Minted(c).waiters == c.waiters
  {
  }

  lemma SendKeeps(c: Client)
    requires ClientInv(c) && !Busy(c)
    ensures ClientInv(Send(c))
  {
    MintedOk(c);
    if c.danglingRead.Some? && c.channel[c.danglingRead.value].Fulfilled? {
      TakeKeeps(Minted(c), c.channel[c.danglingRead.value].frame);
    } else if c.danglingRead.None? {
      AskKeeps(Minted(c), |c.calls|);
    }
  }

  lemma ExpireKeeps(c: Client)
    requires ClientInv(c) && Busy(c)
    ensures ClientInv(Expire(c)) && Parked(Expire(c)) == Parked(c)
  {
  }

  // ---------------------------------------------------------------- the client in its world

  lemma WrittenId(c: Client, id: string)
    requires Numbered(c) && id in c.written
    ensures exists j :: 0 <= j < |c.calls| && id == IdOf(j)
  {
    var j :| 0 <= j < |c.written| && c.written[j] == id;
    assert id == IdOf(j);
  }

  lemma FreshId(c: Client)
    requires Numbered(c)
    ensures IdOf(c.nextRequestId) !in c.written
  {
    if IdOf(c.nextRequestId) in c.written {
      WrittenId(c, IdOf(c.nextRequestId));
      var j :| 0 <= j < |c.calls| && IdOf(c.nextRequestId) == IdOf(j);
      IdsDiffer(c.nextRequestId, j);
      assert false;
    }
  }

  // The newest call may take any frame whose id was written before it was taken.
  lemma NewestMayTake(c: Client, frame: Frame, c': Client)
    requires Numbered(c) && CallsOk(c) && Busy(c) && Numbered(c') && CallsOk(c') && |c'.calls| == |c.calls|
             && c'.written == c.written
    requires frame.Response? && frame.id.Some? ==> frame.id.value in c.written
    requires Matches(frame, c.calls[|c.calls| - 1].id) ==> c'.calls[|c.calls| - 1].outcome == Resolved(frame)
    requires forall j :: 0 <= j < |c.calls| - 1 ==> c'.calls[j] == c.calls[j]
    ensures TakenOk(c', Consumed(|c.calls| - 1, frame))
  {
  }

  // What was taken stays well taken while no ended call changes.
  lemma TakenStays(c: Client, c': Client, t: Consumed)
    requires Numbered(c) && CallsOk(c) && Numbered(c') && TakenOk(c, t)
    requires c.written <= c'.written && |c.calls| <= |c'.calls|
    requires forall j :: 0 <= j < |c.calls| && !c.calls[j].outcome.Waiting? ==> c'.calls[j] == c.calls[j]
    ensures TakenOk(c', t)
  {
    if t.frame.Response? && t.frame.id.Some? {
      WrittenId(c, t.frame.id.value);
      var i :| 0 <= i < |c.calls| && t.frame.id.value == IdOf(i);
      forall j | 0 <= j < |c'.calls| && t.frame.id.value == IdOf(j)
        ensures j <= t.call && (j == t.call ==> c'.calls[j].outcome == Resolved(t.frame))
                && (j < t.call ==> !c'.calls[j].outcome.Waiting?)
      {
        if i != j { IdsDiffer(i, j); }
      }
    }
  }

  lemma FramesAppend(consumed: seq<Consumed>, t: Consumed)
    ensures Frames(consumed + [t]) == Frames(consumed) + [t.frame]
  {
  }

  // What sending changes: one id, one call, and a parked frame if there was one.
  lemma SendEffect(c: Client)
    requires ClientInv(c) && !Busy(c)
    ensures var c' := Send(c);
            && c'.written == c.written + [IdOf(c.nextRequestId)] && |c'.calls| == |c.calls| + 1
            && c'.calls[..|c.calls|] == c.calls && Parked(c') == []
            && c'.consumed == c.consumed + (if Parked(c) == [] then [] else [Consumed(|c.calls|, Parked(c)[0])])
            && (Parked(c) == [] || !Matches(Parked(c)[0], IdOf(c.nextRequestId)) ==> Busy(c'))
  {
    MintedOk(c);
    if Parked(c) != [] {
      TakeEffect(Minted(c), Parked(c)[0]);
      TakeKeeps(Minted(c), Parked(c)[0]);
    }
  }

  // A frame taken is consumed, and touches no call but the newest.
  lemma TakeEffect(c: Client, frame: Frame)
    requires Busy(c)
    ensures var k, c' := |c.calls| - 1, Take(c, |c.calls| - 1, frame);
            && c'.calls[..k] == c.calls[..k] && |c'.calls| == |c.calls|
            && c'.written == c.written && c'.consumed == c.consumed + [Consumed(k, frame)]
  {
  }

  lemma SendConserves(w: World)
    requires Inv(w) && !Busy(w.client)
    ensures Conserved(Step(w, Request))
  {
    var c := w.client;
    SendEffect(c);
    if Parked(c) != [] { FramesAppend(c.consumed, Consumed(|c.calls|, Parked(c)[0])); }
  }

  // What a settled read changes.
  lemma DeliverEffect(c: Client, d: Delivery)
    requires ClientInv(c) && Awaiting(c)
    ensures var c' := Deliver(c, d);
            && c'.written == c.written && |c'.calls| == |c.calls|
            && (forall j :: 0 <= j < |c.calls| && !c.calls[j].outcome.Waiting? ==> c'.calls[j] == c.calls[j])
            && (d.Arrived? && Busy(c) ==>
                  && c'.consumed == c.consumed + [Consumed(|c.calls| - 1, d.frame)] && Parked(c') == []
                  && c'.calls[|c.calls| - 1] == if Matches(d.frame, c.calls[|c.calls| - 1].id)
                                                then c.calls[|c.calls| - 1].(outcome := Resolved(d.frame))
                                                else c.calls[|c.calls| - 1])
            && (!(d.Arrived? && Busy(c)) ==> c'.consumed == c.consumed)
            && (d.Arrived? && !Busy(c) ==> Parked(c') == [d.frame])
            && (d.Broken? ==> Parked(c') == [] && !Busy(c'))
  {
    if d.Arrived? { DeliverArrived(c, d.frame); } else { DeliverBroken(c, d.fault); }
  }

  lemma ReadConserves(w: World)
    requires Inv(w) && Enabled(w, Read)
    ensures Conserved(Step(w, Read))
  {
    var c, d := w.client, w.inbound[0];
    DeliverEffect(c, d);
    assert Parked(c) == [];
    if d.Arrived? && Busy(c) { FramesAppend(c.consumed, Consumed(|c.calls| - 1, d.frame)); }
  }

  // Every turn keeps the protocol's invariant, whatever the host sends.
  lemma StepKeeps(w: World, t: Turn)
    requires Inv(w) && Enabled(w, t)
    ensures Inv(Step(w, t))
  {
    match t {
      case Request =>
        SendKeeps(w.client);
        SendConserves(w);
      case Oversize =>
      case HostSends(_) =>
      case Read =>
        DeliverKeeps(w.client, w.inbound[0]);
        ReadConserves(w);
      case Expiry =>
        ExpireKeeps(w.client);
    }
  }

  lemma {:induction false} RunKeeps(w: World, turns: seq<Turn>)
    requires Inv(w) && IsRun(w, turns)
    ensures Inv(After(w, turns))
    decreases |turns|
  {
    if turns != [] {
      StepKeeps(w, turns[0]);
      RunKeeps(Step(w, turns[0]), turns[1..]);
    }
  }

  // ---------------------------------------------------------------- an honest host

  lemma SendTaken(w: World)
    requires HonestInv(w) && !Busy(w.client)
    requires Parked(w.client) != [] ==> !Matches(Parked(w.client)[0], IdOf(w.client.nextRequestId))
    ensures AllTaken(Send(w.client))
  {
    var c, c' := w.client, Send(w.client);
    SendKeeps(c);
    SendEffect(c);
    assert forall j :: 0 <= j < |c.calls| ==> c'.calls[j] == c'.calls[..|c.calls|][j];
    forall i | 0 <= i < |c'.consumed| ensures TakenOk(c', c'.consumed[i]) {
      if i < |c.consumed| {
        TakenStays(c, c', c.consumed[i]);
      } else {
        var frame := Parked(c)[0];
        assert AnswerIsWritten(w, Arrived(frame));
        NewestMayTake(c', frame, c');
      }
    }
  }

  lemma RequestKeeps(w: World)
    requires HonestInv(w) && Enabled(w, Request)
    ensures HonestInv(Step(w, Request))
  {
    var c := w.client;
    var w' := Step(w, Request);
    FreshId(c);
    if Parked(c) != [] { assert AnswerIsWritten(w, Arrived(Parked(c)[0])); }
    StepKeeps(w, Request);
    SendEffect(c);
    SendTaken(w);
    forall i | 0 <= i < |w'.inbound|
      ensures AnswerIsWritten(w', w'.inbound[i])
    {
      assert AnswerIsWritten(w, w.inbound[i]);
    }
    assert AllWritten(w');
    assert w'.client.calls[|c.calls|].id == IdOf(|c.calls|);
  }

  lemma HostSendsKeeps(w: World, d: Delivery)
    requires HonestInv(w) && Honest(w, HostSends(d))
    ensures HonestInv(Step(w, HostSends(d)))
  {
    var w' := Step(w, HostSends(d));
    forall i | 0 <= i < |w'.inbound| ensures AnswerIsWritten(w', w'.inbound[i]) {
      if i < |w.inbound| { assert AnswerIsWritten(w, w.inbound[i]); }
    }
    forall i | 0 <= i < |Parked(w.client)| ensures AnswerIsWritten(w', Arrived(Parked(w.client)[i])) {
      assert AnswerIsWritten(w, Arrived(Parked(w.client)[i]));
    }
    if Busy(w.client) && w.client.calls[|w.client.calls| - 1].id in w'.answered {
      var id := w.client.calls[|w.client.calls| - 1].id;
      if id in w.answered {
        assert OnItsWay(w, id);
        if i :| 0 <= i < |w.inbound| && w.inbound[i].Arrived? && Matches(w.inbound[i].frame, id) {
          assert w'.inbound[i] == w.inbound[i];
        }
      } else {
        assert w'.inbound[|w.inbound|] == d && Matches(d.frame, id);
      }
    }
  }

  lemma ReadTaken(w: World)
    requires HonestInv(w) && Enabled(w, Read)
    ensures AllTaken(Deliver(w.client, w.inbound[0]))
  {
    var c, d := w.client, w.inbound[0];
    var c' := Deliver(c, d);
    DeliverKeeps(c, d);
    DeliverEffect(c, d);
    assert AnswerIsWritten(w, d);
    forall i | 0 <= i < |c'.consumed| ensures TakenOk(c', c'.consumed[i]) {
      if i < |c.consumed| {
        TakenStays(c, c', c.consumed[i]);
      } else {
        NewestMayTake(c, d.frame, c');
      }
    }
  }

  lemma ReadKeeps(w: World)
    requires HonestInv(w) && Enabled(w, Read)
    ensures HonestInv(Step(w, Read))
  {
    var c, d := w.client, w.inbound[0];
    var w' := Step(w, Read);
    StepKeeps(w, Read);
    DeliverEffect(c, d);
    ReadTaken(w);
    assert AnswerIsWritten(w, d);
    forall i | 0 <= i < |w'.inbound|
      ensures AnswerIsWritten(w', w'.inbound[i])
    {
      assert AnswerIsWritten(w, w.inbound[i + 1]);
    }
    if Busy(w'.client) && w'.client.calls[|c.calls| - 1].id in w.answered {
      StillOnItsWay(w);
    }
  }

  lemma StillOnItsWay(w: World)
    requires HonestInv(w) && Enabled(w, Read) && Busy(Deliver(w.client, w.inbound[0]))
    requires w.client.calls[|w.client.calls| - 1].id in w.answered
    ensures OnItsWay(Step(w, Read), w.client.calls[|w.client.calls| - 1].id)
  {
    var c, d := w.client, w.inbound[0];
    var id := c.calls[|c.calls| - 1].id;
    DeliverEffect(c, d);
    assert Busy(c) && Parked(c) == [];
    var i :| 0 <= i < |w.inbound| && w.inbound[i].Arrived? && Matches(w.inbound[i].frame, id);
    assert w.inbound[1..][i - 1] == w.inbound[i];
  }

  lemma ExpiryKeeps(w: World)
    requires HonestInv(w) && Enabled(w, Expiry)
    ensures HonestInv(Step(w, Expiry))
  {
    var c, c', w' := w.client, Expire(w.client), Step(w, Expiry);
    ExpireKeeps(c);
    assert Parked(c) == [];
    forall i | 0 <= i < |c'.consumed| ensures TakenOk(c', c'.consumed[i]) { TakenStays(c, c', c.consumed[i]); }
    forall i | 0 <= i < |w'.inbound|
      ensures AnswerIsWritten(w', w'.inbound[i])
    {
      assert AnswerIsWritten(w, w.inbound[i]);
    }
  }

  lemma HonestStepKeeps(w: World, t: Turn)
    requires HonestInv(w) && Enabled(w, t) && Honest(w, t)
    ensures HonestInv(Step(w, t))
  {
    match t {
      case Request => RequestKeeps(w);
      case Oversize =>
      case HostSends(d) => HostSendsKeeps(w, d);
      case Read => ReadKeeps(w);
      case Expiry => ExpiryKeeps(w);
    }
  }

  lemma {:induction false} HonestRunKeeps(w: World, turns: seq<Turn>)
    requires HonestInv(w) && IsHonestRun(w, turns)
    ensures HonestInv(After(w, turns))
    decreases |turns|
  {
    if turns != [] {
      HonestStepKeeps(w, turns[0]);
      HonestRunKeeps(Step(w, turns[0]), turns[1..]);
    }
  }

  // ---------------------------------------------------------------- what it adds up to

  // In every run at most one channel read is outstanding.
  lemma AtMostOneRead(turns: seq<Turn>)
    requires IsRun(Start, turns)
    ensures var c := After(Start, turns).client;
            forall r, q ::
              0 <= r < |c.channel| && 0 <= q < |c.channel| && c.channel[r].InFlight? && c.channel[q].InFlight? ==>
                r == q
  {
    RunKeeps(Start, turns);
  }

  // In every run the requests are s0, s1, s2, ... and a call resolves only with a response
  // carrying its own id.
  lemma OwnResponseOnly(turns: seq<Turn>)
    requires IsRun(Start, turns)
    ensures var c := After(Start, turns).client;
            |c.calls| == |c.written| &&
            forall k :: 0 <= k < |c.calls| ==>
              c.written[k] == IdOf(k) && (c.calls[k].outcome.Resolved? ==> Matches(c.calls[k].outcome.frame, IdOf(k)))
  {
    RunKeeps(Start, turns);
  }

  // A call that has ended, by its answer, its timer or a fault, never changes again and takes no
  // frame: an abandoned loop leaves the channel to its successors.
  lemma EndedCallTakesNothing(w: World, t: Turn, j: nat)
    requires Inv(w) && Enabled(w, t) && j < |w.client.calls| && !w.client.calls[j].outcome.Waiting?
    ensures var c, c' := w.client, Step(w, t).client;
            && j < |c'.calls| && c'.calls[j] == c.calls[j] && c.consumed <= c'.consumed
            && forall i :: |c.consumed| <= i < |c'.consumed| ==> c'.consumed[i].call != j
  {
    var c, c' := w.client, Step(w, t).client;
    match t {
      case Request =>
        SendEffect(c);
        assert c'.calls[j] == c'.calls[..|c.calls|][j];
      case Read => DeliverEffect(c, w.inbound[0]);
      case _ =>
    }
  }

  // What a turn makes of the waiting call: the timer ends it as timed out, a broken read with that
  // very fault, its own response with that response; anything else leaves it waiting.
  function OutcomeAfter(w: World, t: Turn, id: string): Outcome {
    match t
    case Expiry => TimedOut
    case Read =>
      if w.inbound == [] then Waiting
      else
        (match w.inbound[0]
         case Broken(fault) => Faulted(fault)
         case Arrived(frame) => if Matches(frame, id) then Resolved(frame) else Waiting)
    case _ => Waiting
  }

  lemma DeliveryDecides(c: Client, delivery: Delivery)
    requires ClientInv(c) && Awaiting(c) && Busy(c)
    ensures var k, c' := |c.calls| - 1, Deliver(c, delivery);
            && |c'.calls| == k + 1 && c'.calls[k].id == c.calls[k].id && c'.written == c.written
            && c'.calls[k].outcome == match delivery
                                      case Broken(fault) => Faulted(fault)
                                      case Arrived(frame) =>
                                        if Matches(frame, c.calls[k].id) then Resolved(frame) else Waiting
  {
    if delivery.Arrived? {
      DeliverEffect(c, delivery);
    } else {
      DeliverBroken(c, delivery.fault);
    }
  }

  // In every run, every turn decides the waiting call so, and writes nothing.
  lemma WaitingCallEndsAsItShould(turns: seq<Turn>, w: World, t: Turn)
    requires IsRun(Start, turns) && w == After(Start, turns) && Busy(w.client) && Enabled(w, t)
    ensures var c, c' := w.client, Step(w, t).client;
            var k := |c.calls| - 1;
            && |c'.calls| == k + 1 && c'.calls[k].id == IdOf(k) && c'.written == c.written
            && c'.calls[k].outcome == OutcomeAfter(w, t, IdOf(k))
  {
    assert ClientInv(w.client) by { RunKeeps(Start, turns); }
    TurnDecides(w, t);
  }

  lemma TurnDecides(w: World, t: Turn)
    requires ClientInv(w.client) && Busy(w.client) && Enabled(w, t)
    ensures var c, c' := w.client, Step(w, t).client;
            var k := |c.calls| - 1;
            && |c'.calls| == k + 1 && c'.calls[k].id == IdOf(k) && c'.written == c.written
            && c'.calls[k].outcome == OutcomeAfter(w, t, IdOf(k))
  {
    if t.Read? { DeliveryDecides(w.client, w.inbound[0]); }
  }

  lemma SendDecides(c: Client)
    requires ClientInv(c) && !Busy(c)
    ensures var k, c' := |c.calls|, Send(c);
            && |c'.calls| == k + 1 && c'.calls[..k] == c.calls && c'.calls[k].id == IdOf(k)
            && c'.written == c.written + [IdOf(k)]
            && c'.calls[k].outcome == if Parked(c) != [] && Matches(Parked(c)[0], IdOf(k)) then Resolved(Parked(c)[0])
                                      else Waiting
  {
    SendEffect(c);
    assert Minted(c).calls[|c.calls|] == Call(IdOf(|c.calls|), false, Waiting);
  }

  // In every run, a call that starts writes its own request and nothing else, and waits, unless the
  // one frame parked for it is its response.
  lemma CallStartsWithItsRequest(turns: seq<Turn>, w: World)
    requires IsRun(Start, turns) && w == After(Start, turns) && !Busy(w.client)
    ensures var c, c' := w.client, Step(w, Request).client;
            var k := |c.calls|;
            && |c'.calls| == k + 1 && c'.calls[..k] == c.calls && c'.calls[k].id == IdOf(k)
            && c'.written == c.written + [IdOf(k)]
            && c'.calls[k].outcome == if Parked(c) != [] && Matches(Parked(c)[0], IdOf(k)) then Resolved(Parked(c)[0])
                                      else Waiting
  {
    assert ClientInv(w.client) by { RunKeeps(Start, turns); }
    SendDecides(w.client);
  }

  // A frame carrying call j's id was taken by call j itself, or by a later call once j had ended.
  ghost predicate TakenByOwnerOrAfter(c: Client, t: Consumed) {
    forall j :: 0 <= j < |c.calls| && Matches(t.frame, IdOf(j)) ==>
      t.call == j || (t.call > j && !c.calls[j].outcome.Waiting?)
  }

  // Every frame the channel delivered was handed over exactly once, in order, or is the one
  // frame parked for the next call.
  lemma FramesAreHandedOverOnce(turns: seq<Turn>)
    requires IsRun(Start, turns)
    ensures var w := After(Start, turns);
            w.arrived == Frames(w.client.consumed) + Parked(w.client) && |Parked(w.client)| <= 1
  {
    RunKeeps(Start, turns);
  }

  // With an honest host no call took a later call's response.
  lemma NoCallTakesALaterAnswer(turns: seq<Turn>)
    requires IsHonestRun(Start, turns)
    ensures var c := After(Start, turns).client;
            forall i :: 0 <= i < |c.consumed| ==> TakenByOwnerOrAfter(c, c.consumed[i])
  {
    HonestRunKeeps(Start, turns);
    var c := After(Start, turns).client;
    forall i | 0 <= i < |c.consumed| ensures TakenByOwnerOrAfter(c, c.consumed[i]) {
      assert TakenOk(c, c.consumed[i]);
    }
  }

  // Honesty is needed: an answer sent before its request was written is swallowed by the call
  // that is waiting then.
  lemma EarlyAnswerIsSwallowed() returns (turns: seq<Turn>)
    ensures IsRun(Start, turns)
    ensures var c := After(Start, turns).client;
            |c.calls| == 2 && |c.consumed| == 1 && c.consumed[0].call == 0 && Matches(c.consumed[0].frame, IdOf(1))
  {
    IdsDiffer(0, 1);
    var early := Arrived(Response(Some(IdOf(1)), ""));
    var w1 := Step(Start, Request);
    var w2 := Step(w1, HostSends(early));
    var w3 := Step(w2, Read);
    assert Deliver(w2.client, early)
           == Take(w2.client.(channel := [Fulfilled(early.frame)], waiters := []), 0, early.frame);
    var w4 := Step(w3, Expiry);
    First(w4, Request, []);
    First(w3, Expiry, [Request] + []);
    First(w2, Read, [Expiry] + ([Request] + []));
    First(w1, HostSends(early), [Read] + ([Expiry] + ([Request] + [])));
    turns := [HostSends(early)] + ([Read] + ([Expiry] + ([Request] + [])));
    First(Start, Request, turns);
    turns := [Request] + turns;
  }

  lemma First(w: World, t: Turn, rest: seq<Turn>)
    requires Enabled(w, t) && IsRun(Step(w, t), rest)
    ensures IsRun(w, [t] + rest) && After(w, [t] + rest) == After(Step(w, t), rest)
  {
    assert ([t] + rest)[1..] == rest;
  }

  // `n` reads in a row.
  ghost function ReadMany(w: World, n: nat): World
    decreases n
  {
    if n == 0 || !Enabled(w, Read) then w else ReadMany(Step(w, Read), n - 1)
  }

  lemma {:induction false} ReadsReachTheAnswer(w: World, i: nat)
    requires HonestInv(w) && Busy(w.client) && i < |w.inbound|
    requires forall j :: 0 <= j <= i ==> w.inbound[j].Arrived?
    requires forall j :: 0 <= j < i ==> !Matches(w.inbound[j].frame, w.client.calls[|w.client.calls| - 1].id)
    requires Matches(w.inbound[i].frame, w.client.calls[|w.client.calls| - 1].id)
    ensures var k := |w.client.calls| - 1;
            var c := ReadMany(w, i + 1).client;
            |c.calls| == |w.client.calls| && c.calls[k].id == w.client.calls[k].id
            && c.calls[k].outcome == Resolved(w.inbound[i].frame)
    decreases i
  {
    var w' := Step(w, Read);
    ReadOne(w);
    if i == 0 {
      assert ReadMany(w, 1) == ReadMany(w', 0);
    } else {
      assert forall j :: 0 <= j <= i - 1 ==> w'.inbound[j] == w.inbound[j + 1];
      ReadsReachTheAnswer(w', i - 1);
    }
  }

  // One read by a waiting call: its answer ends it, any other frame leaves it waiting.
  lemma ReadOne(w: World)
    requires HonestInv(w) && Busy(w.client) && w.inbound != [] && w.inbound[0].Arrived?
    ensures Enabled(w, Read) && HonestInv(Step(w, Read)) && Step(w, Read).inbound == w.inbound[1..]
    ensures var k, c, c' := |w.client.calls| - 1, w.client, Step(w, Read).client;
            && |c'.calls| == |c.calls| && c'.calls[k].id == c.calls[k].id
            && (Matches(w.inbound[0].frame, c.calls[k].id) ==> c'.calls[k].outcome == Resolved(w.inbound[0].frame))
            && (!Matches(w.inbound[0].frame, c.calls[k].id) ==> Busy(c'))
  {
    ReadKeeps(w);
    DeliverEffect(w.client, w.inbound[0]);
  }

  lemma FirstMatch(inbound: seq<Delivery>, id: string) returns (i: nat)
    requires exists j :: 0 <= j < |inbound| && inbound[j].Arrived? && Matches(inbound[j].frame, id)
    requires forall j :: 0 <= j < |inbound| ==> inbound[j].Arrived?
    ensures i < |inbound| && Matches(inbound[i].frame, id)
    ensures forall j :: 0 <= j < i ==> !Matches(inbound[j].frame, id)
  {
    i := 0;
    while !Matches(inbound[i].frame, id)
      invariant i < |inbound| && forall j :: 0 <= j < i ==> !Matches(inbound[j].frame, id)
      invariant exists j :: 0 <= j < |inbound| && Matches(inbound[j].frame, id)
      decreases |inbound| - i
    {
      i := i + 1;
    }
  }

  // No earlier call can have swallowed it: once the host has answered the waiting call, and
  // unless the channel breaks or the timer fires, reading on resolves the call with that answer.
  lemma LiveCallGetsItsAnswer(turns: seq<Turn>) returns (n: nat)
    requires IsHonestRun(Start, turns)
    requires var w := After(Start, turns);
             Busy(w.client) && w.client.calls[|w.client.calls| - 1].id in w.answered
             && forall j :: 0 <= j < |w.inbound| ==> w.inbound[j].Arrived?
    ensures var w := After(Start, turns);
            var k := |w.client.calls| - 1;
            var c := ReadMany(w, n).client;
            n <= |w.inbound| && |c.calls| == k + 1
            && c.calls[k].outcome.Resolved? && Matches(c.calls[k].outcome.frame, IdOf(k))
  {
    var w := After(Start, turns);
    HonestRunKeeps(Start, turns);
    n := AnswerIsReached(w);
  }

  lemma AnswerIsReached(w: World) returns (n: nat)
    requires HonestInv(w) && Busy(w.client) && w.client.calls[|w.client.calls| - 1].id in w.answered
    requires forall j :: 0 <= j < |w.inbound| ==> w.inbound[j].Arrived?
    ensures var k := |w.client.calls| - 1;
            var c := ReadMany(w, n).client;
            n <= |w.inbound| && |c.calls| == k + 1
            && c.calls[k].outcome.Resolved? && Matches(c.calls[k].outcome.frame, IdOf(k))
  {
    var i := FirstMatch(w.inbound, w.client.calls[|w.client.calls| - 1].id);
    ReadsReachTheAnswer(w, i);
    n := i + 1;
  }
}

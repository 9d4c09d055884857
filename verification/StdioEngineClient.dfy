// The wire client as the object it is: its fields are reassigned turn by turn, and each
// turn is the one of the protocol model.
module StdioEngineClient {
  import opened Prelude
  import opened RequestIds
  import opened EngineClient
  import Wire

  class StdioEngineClient {
    var nextRequestId: nat
    var written: seq<string>
    var channel: seq<ReadState>
    var danglingRead: Option<nat>
    var waiters: seq<nat>
    var calls: seq<Call>
    ghost var consumed: seq<Consumed>

    constructor ()
      ensures View() == Idle
    {
      nextRequestId := 0;
      written := [];
      channel := [];
      danglingRead := None;
      waiters := [];
      calls := [];
      consumed := [];
    }

    ghost function View(): Client
      reads this
    {
      Client(nextRequestId, written, channel, danglingRead, waiters, calls, consumed)
    }

    ghost predicate Sound()
      reads this
    {
      danglingRead.Some? ==> danglingRead.value < |channel|
    }

    // Runs loop `k` until it waits for the channel or its call ends.
    method ReadUntilMatch(k: nat)
      requires Sound() && k < |calls|
      modifies this
      ensures Sound() && View() == Enter(old(View()), k)
    {
      while true
        invariant Sound() && k < |calls| && Enter(View(), k) == Enter(old(View()), k)
        decreases if danglingRead.Some? then 1 else 0
      {
        if danglingRead.None? {
          channel := channel + [InFlight];
          danglingRead := Some(|channel| - 1);
        }
        match channel[danglingRead.value] {
          case InFlight =>
            waiters := waiters + [k];
            return;
          case Rejected(fault) =>
            danglingRead := None;
            calls := calls[k := calls[k].(outcome := Faulted(fault))];
            return;
          case Fulfilled(frame) =>
            danglingRead := None;
            consumed := consumed + [Consumed(k, frame)];
            if Matches(frame, calls[k].id) {
              calls := calls[k := calls[k].(outcome := Resolved(frame))];
              return;
            }
        }
      }
    }

    // Mints an id, writes the request and starts its loop.
    method Send()
      requires Sound()
      modifies this
      ensures Sound() && View() == EngineClient.Send(old(View()))
      ensures written == old(written) + [IdOf(old(nextRequestId))]
    {
      var id := IdOf(nextRequestId);
      nextRequestId := nextRequestId + 1;
      written := written + [id];
      calls := calls + [Call(id, false, Waiting)];
      ReadUntilMatch(|calls| - 1);
    }

    // An over-budget batch is refused locally: no id minted, nothing written.
    method Emit(batch: Wire.Json) returns (refused: bool)
      requires Sound()
      modifies this
      ensures Sound() && refused == Wire.ExceedsEmitBatchBudget(batch)
      ensures View() == if refused then old(View()) else EngineClient.Send(old(View()))
      ensures written == old(written) + if refused then [] else [IdOf(old(nextRequestId))]
    {
      refused := Wire.ExceedsEmitBatchBudget(batch);
      if refused { return; }
      Send();
    }

    // The in-flight read settles: every loop awaiting it resumes, in order.
    method OnDelivery(delivery: Delivery)
      requires Sound() && Awaiting(View())
      modifies this
      ensures Sound() && View() == Deliver(old(View()), delivery)
    {
      var loops := waiters;
      waiters := [];
      match delivery {
        case Arrived(frame) =>
          channel := channel[danglingRead.value := Fulfilled(frame)];
          ghost var start := View();
          assert loops[0..] == loops;
          for i := 0 to |loops|
            invariant Sound() && Resume(View(), loops[i..], frame) == Resume(start, loops, frame)
          {
            var k := loops[i];
            assert loops[i..][1..] == loops[i + 1..];
            if k < |calls| && !calls[k].abandoned {
              ghost var before := View();
              danglingRead := None;
              consumed := consumed + [Consumed(k, frame)];
              if Matches(frame, calls[k].id) {
                calls := calls[k := calls[k].(outcome := Resolved(frame))];
              } else {
                ReadUntilMatch(k);
              }
              assert View() == Take(before, k, frame);
            }
          }
        case Broken(fault) =>
          channel := channel[danglingRead.value := Rejected(fault)];
          ghost var start := View();
          assert loops[0..] == loops;
          for i := 0 to |loops|
            invariant Sound() && ResumeBroken(View(), loops[i..], fault) == ResumeBroken(start, loops, fault)
          {
            var k := loops[i];
            assert loops[i..][1..] == loops[i + 1..];
            danglingRead := None;
            if k < |calls| && !calls[k].abandoned {
              calls := calls[k := calls[k].(outcome := Faulted(fault))];
            }
          }
      }
    }

    method OnTimeout()
      requires Sound() && Busy(View())
      modifies this
      ensures Sound() && View() == Expire(old(View()))
    {
      var k := |calls| - 1;
      calls := calls[k := calls[k].(abandoned := true, outcome := TimedOut)];
    }
  }
}

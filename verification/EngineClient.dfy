// The single-in-flight wire client: one request, then a loop of channel reads until the
// response with the request's own id, a timeout that abandons the loop, and one channel
// read that an abandoned loop leaves behind for its successor.
//
// A turn is everything the client does before it next waits. The reactions to one settled
// read run back to back, so one turn resumes every loop that was awaiting it, in order.
module EngineClient {
  import opened Prelude
  import opened RequestIds

  // What the channel delivers: a decoded value, of which only a response carries an id.
  datatype Frame = NotAnObject | OtherType(kind: string) | Response(id: Option<string>, body: string)

  datatype Delivery = Arrived(frame: Frame) | Broken(fault: string)

  datatype ReadState = InFlight | Fulfilled(frame: Frame) | Rejected(fault: string)

  datatype Outcome = Waiting | Resolved(frame: Frame) | TimedOut | Faulted(fault: string)

  datatype Call = Call(id: string, abandoned: bool, outcome: Outcome)

  // A frame taken off the channel, and the call that took it.
  datatype Consumed = Consumed(call: nat, frame: Frame)

  datatype Client = Client(
    nextRequestId: nat,
    written: seq<string>,
    channel: seq<ReadState>,      // every channel read ever issued
    danglingRead: Option<nat>,
    waiters: seq<nat>,          // the calls whose loop awaits the dangling read, oldest first
    calls: seq<Call>,
    consumed: seq<Consumed>)    // history

  const Idle: Client := Client(0, [], [], None, [], [], [])

  predicate Matches(frame: Frame, id: string) {
    frame.Response? && frame.id == Some(id)
  }

  function Settle(c: Client, k: nat, outcome: Outcome): Client
    requires k < |c.calls|
  {
    c.(calls := c.calls[k := c.calls[k].(outcome := outcome)])
  }

  // Loop `k` asks the channel for a frame and waits.
  function Ask(c: Client, k: nat): Client {
    if c.danglingRead.None? then
      c.(channel := c.channel + [InFlight], danglingRead := Some(|c.channel|), waiters := c.waiters + [k])
    else c.(waiters := c.waiters + [k])
  }

  // Loop `k` takes `frame`: its own response ends the call, anything else is discarded.
  function Take(c: Client, k: nat, frame: Frame): Client
    requires k < |c.calls|
  {
    var taken := c.(danglingRead := None, consumed := c.consumed + [Consumed(k, frame)]);
    if Matches(frame, c.calls[k].id) then Settle(taken, k, Resolved(frame)) else Ask(taken, k)
  }

  // The first turn of loop `k`: a read already settled for an abandoned loop is taken over.
  function Enter(c: Client, k: nat): Client
    requires k < |c.calls|
  {
    if c.danglingRead.Some? && c.danglingRead.value < |c.channel| then
      match c.channel[c.danglingRead.value]
      case InFlight => Ask(c, k)
      case Fulfilled(frame) => Take(c, k, frame)
      case Rejected(fault) => Settle(c.(danglingRead := None), k, Faulted(fault))
    else Ask(c.(danglingRead := None), k)
  }

  // Mint an id, write the request, enter the loop.
  function Send(c: Client): Client {
    var id := IdOf(c.nextRequestId);
    Enter(c.(nextRequestId := c.nextRequestId + 1, written := c.written + [id],
             calls := c.calls + [Call(id, false, Waiting)]), |c.calls|)
  }

  // The awaiting loops resume on a fulfilled read. An abandoned one stops without touching it.
  function Resume(c: Client, loops: seq<nat>, frame: Frame): (r: Client)
    ensures |r.calls| == |c.calls|
    decreases |loops|
  {
    if loops == [] then c
    else
      var k := loops[0];
      var next := if k < |c.calls| && !c.calls[k].abandoned then Take(c, k, frame) else c;
      Resume(next, loops[1..], frame)
  }

  function ResumeBroken(c: Client, loops: seq<nat>, fault: string): (r: Client)
    ensures |r.calls| == |c.calls|
    decreases |loops|
  {
    if loops == [] then c
    else
      var k := loops[0];
      var cleared := c.(danglingRead := None);
      var next := if k < |c.calls| && !c.calls[k].abandoned then Settle(cleared, k, Faulted(fault)) else cleared;
      ResumeBroken(next, loops[1..], fault)
  }

  predicate Awaiting(c: Client) {
    c.danglingRead.Some? && c.danglingRead.value < |c.channel| && c.channel[c.danglingRead.value].InFlight?
  }

  function Deliver(c: Client, delivery: Delivery): Client
    requires Awaiting(c)
  {
    var r := c.danglingRead.value;
    match delivery
    case Arrived(frame) => Resume(c.(channel := c.channel[r := Fulfilled(frame)], waiters := []), c.waiters, frame)
    case Broken(fault) => ResumeBroken(c.(channel := c.channel[r := Rejected(fault)], waiters := []), c.waiters, fault)
  }

  predicate Busy(c: Client) {
    c.calls != [] && c.calls[|c.calls| - 1].outcome.Waiting?
  }

  // The timer of the waiting call fires.
  function Expire(c: Client): Client
    requires Busy(c)
  {
    var k := |c.calls| - 1;
    c.(calls := c.calls[k := c.calls[k].(abandoned := true, outcome := TimedOut)])
  }

  // ---------------------------------------------------------------- the client in its world

  datatype World = World(
    client: Client,
    inbound: seq<Delivery>,   // what the channel holds, in order
    answered: set<string>,    // ids the host has answered
    arrived: seq<Frame>)      // history: every frame a read was fulfilled with

  datatype Turn = Request | Oversize | HostSends(delivery: Delivery) | Read | Expiry

  const Start: World := World(Idle, [], {}, [])

  predicate Enabled(w: World, t: Turn) {
    match t
    case Request => !Busy(w.client)
    case Oversize => !Busy(w.client)
    case HostSends(_) => true
    case Read => Awaiting(w.client) && w.inbound != []
    case Expiry => Busy(w.client)
  }

  // An honest host answers a request at most once and only after it was written; everything
  // else it sends is arbitrary.
  predicate Honest(w: World, t: Turn) {
    t.HostSends? && t.delivery.Arrived? && t.delivery.frame.Response? && t.delivery.frame.id.Some? ==>
      t.delivery.frame.id.value in w.client.written && t.delivery.frame.id.value !in w.answered
  }

  function Step(w: World, t: Turn): World
    requires Enabled(w, t)
  {
    match t
    case Request => w.(client := Send(w.client))
    case Oversize => w
    case HostSends(delivery) =>
      w.(inbound := w.inbound + [delivery],
         answered := if delivery.Arrived? && delivery.frame.Response? && delivery.frame.id.Some?
                     then w.answered + {delivery.frame.id.value} else w.answered)
    case Read =>
      w.(client := Deliver(w.client, w.inbound[0]), inbound := w.inbound[1..],
         arrived := if w.inbound[0].Arrived? then w.arrived + [w.inbound[0].frame] else w.arrived)
    case Expiry => w.(client := Expire(w.client))
  }

  // Any host: it may repeat answers, answer ids never written, and send junk.
  ghost predicate IsRun(w: World, turns: seq<Turn>)
    decreases |turns|
  {
    turns == [] || (Enabled(w, turns[0]) && IsRun(Step(w, turns[0]), turns[1..]))
  }

  ghost predicate IsHonestRun(w: World, turns: seq<Turn>)
    decreases |turns|
  {
    IsRun(w, turns) && (turns == [] || (Honest(w, turns[0]) && IsHonestRun(Step(w, turns[0]), turns[1..])))
  }

  ghost function After(w: World, turns: seq<Turn>): World
    requires IsRun(w, turns)
    decreases |turns|
  {
    if turns == [] then w else After(Step(w, turns[0]), turns[1..])
  }
}

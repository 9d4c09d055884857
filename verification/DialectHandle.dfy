// The mutable objects behind the run: the lazily printed directive, the session buffer, one
// handle's controller and the run-boundary registry.
module DialectHandle {
  import opened Prelude
  import opened MutationGate
  import HandleMachine

  type Dialect<!A, !E> = HandleMachine.Dialect<A, E>

  // A modify directive whose content prints the live AST, once, when first asked for.
  class LazyModifyDirective<A, E> {
    const owner: DialectHandleController<A, E>
    var cached: Option<string>

    constructor (owner: DialectHandleController<A, E>)
      ensures this.owner == owner && cached == None
    {
      this.owner := owner;
      cached := None;
    }

    ghost predicate Resolvable()
      reads this, owner
    {
      cached.Some? || owner.live.Some?
    }

    // The content the getter would return now.
    ghost function Text(): string
      reads this, owner
      requires Resolvable()
    {
      if cached.Some? then cached.value else owner.dialect.render(owner.live.value)
    }

    method Content() returns (text: string)
      requires Resolvable()
      modifies this
      ensures text == old(Text()) && cached == Some(text)
    {
      if cached.None? {
        cached := Some(owner.dialect.render(owner.live.value));
      }
      text := cached.value;
    }
  }

  class Session<A, E> {
    var pending: seq<LazyModifyDirective<A, E>>

    constructor ()
      ensures pending == []
    {
      pending := [];
    }

    method Buffer(directive: LazyModifyDirective<A, E>)
      modifies this
      ensures pending == old(pending) + [directive]
    {
      pending := pending + [directive];
    }

    method IsPending(directive: LazyModifyDirective<A, E>) returns (found: bool)
      ensures found <==> directive in pending
    {
      found := false;
      for i := 0 to |pending|
        invariant found <==> directive in pending[..i]
      {
        if pending[i] == directive { found := true; }
      }
    }

    // The synchronous half of flush: the whole buffer leaves as one batch.
    method Splice() returns (batch: seq<LazyModifyDirective<A, E>>)
      modifies this
      ensures batch == old(pending) && pending == []
    {
      batch := pending;
      pending := [];
    }

    // JSON.stringify walking the batch: each getter is evaluated once, in order.
    static method Serialize(batch: seq<LazyModifyDirective<A, E>>) returns (texts: seq<string>)
      requires forall i :: 0 <= i < |batch| ==> batch[i].Resolvable()
      modifies batch
      ensures |texts| == |batch|
      ensures forall i :: 0 <= i < |batch| ==> texts[i] == old(batch[i].Text()) && batch[i].cached == Some(texts[i])
    {
      texts := [];
      for i := 0 to |batch|
        invariant |texts| == i
        invariant forall j :: 0 <= j < i ==> texts[j] == old(batch[j].Text()) && batch[j].cached == Some(texts[j])
        invariant forall j :: 0 <= j < |batch| ==> batch[j].Resolvable() && batch[j].Text() == old(batch[j].Text())
      {
        var text := batch[i].Content();
        texts := texts + [text];
      }
    }
  }

  class DialectHandleController<A, E> {
    const dialect: Dialect<A, E>
    var live: Option<A>
    var openDirective: LazyModifyDirective?<A, E>
    var lastEmittedText: string

    constructor (dialect: Dialect<A, E>)
      ensures this.dialect == dialect && live == None && openDirective == null
    {
      this.dialect := dialect;
      live := None;
      openDirective := null;
      lastEmittedText := "";
    }

    ghost predicate Valid()
      reads this
    {
      openDirective != null ==> openDirective.owner == this
    }

    // The open directive as the mutation gate sees it.
    ghost function View(session: Session<A, E>): OpenView
      reads this, session, openDirective
    {
      if openDirective == null then NoOpen else Open(openDirective.cached, openDirective in session.pending)
    }

    // Seeds the live AST and the baseline from the text the first read returned.
    method EnsureLive(content: Option<string>) returns (error: Option<string>)
      modifies this
      ensures openDirective == old(openDirective)
      ensures old(live).Some? ==> error.None? && live == old(live) && lastEmittedText == old(lastEmittedText)
      ensures old(live).None? && content.Some? && dialect.parse(content.value).Some? ==>
                error.None? && live == dialect.parse(content.value) && lastEmittedText == content.value
      ensures old(live).None? && !(content.Some? && dialect.parse(content.value).Some?) ==>
                error == Some(if content.None? then HandleMachine.MISSING else HandleMachine.UNPARSEABLE)
                && live.None? && lastEmittedText == old(lastEmittedText)
    {
      if live.Some? { return None; }
      if content.None? { return Some(HandleMachine.MISSING); }
      var parsed := dialect.parse(content.value);
      if parsed.None? { return Some(HandleMachine.UNPARSEABLE); }
      live := parsed;
      lastEmittedText := content.value;
      error := None;
    }

    // The orphan guard and mutation gate after an op: exactly the decision of Gate.
    method EnsureOpen(session: Session<A, E>)
      requires Valid() && live.Some?
      modifies this, session, openDirective
      ensures Valid() && live == old(live)
      ensures var gate := Gate(old(View(session)), old(lastEmittedText), dialect.render(live.value));
              && lastEmittedText == gate.last
              && (gate.forces ==> old(openDirective) != null && old(openDirective).cached == Some(gate.last))
              && (!gate.forces && old(openDirective) != null ==> old(openDirective).cached == old(openDirective.cached))
              && (gate.registers ==>
                    && openDirective != null && fresh(openDirective) && openDirective.cached == None
                    && session.pending == old(session.pending) + [openDirective])
              && (!gate.registers ==> session.pending == old(session.pending))
              && (!gate.registers ==> openDirective == if gate.closes then null else old(openDirective))
    {
      if openDirective != null {
        var pending := session.IsPending(openDirective);
        if pending { return; }
        var text := openDirective.Content();
        lastEmittedText := text;
        openDirective := null;
      }
      var printed := dialect.render(live.value);
      if printed == lastEmittedText { return; }
      var directive := new LazyModifyDirective<A, E>(this);
      openDirective := directive;
      session.Buffer(directive);
    }

    // Forces the open directive's getter once the tail has settled.
    method Settle()
      requires Valid() && (openDirective != null ==> openDirective.Resolvable())
      modifies openDirective
      ensures openDirective != null ==> openDirective.cached == Some(old(openDirective.Text()))
    {
      if openDirective != null {
        var text := openDirective.Content();
      }
    }
  }

  // The session's first-wins poison flag, consulted and set by every step.
  class SessionContext {
    var sessionFailure: Option<string>

    constructor ()
      ensures sessionFailure == None
    {
      sessionFailure := None;
    }

    // A step that failed for `reason` rejects with the session's first reason.
    method Reject(reason: string) returns (rejection: string)
      modifies this
      ensures rejection == if old(sessionFailure).Some? then old(sessionFailure).value else reason
      ensures sessionFailure == Some(rejection)
    {
      if sessionFailure.None? {
        sessionFailure := Some(reason);
      }
      rejection := sessionFailure.value;
    }

    // Every op, query and read goes through here. `outcome` is what the step does when it runs: the
    // reason it fails with, if it does. After a failure the step does not run at all.
    method GuardedStep(outcome: Option<string>) returns (ran: bool, rejection: Option<string>)
      modifies this
      ensures ran <==> old(sessionFailure).None?
      ensures rejection == if old(sessionFailure).Some? then old(sessionFailure) else outcome
      ensures sessionFailure == rejection
    {
      if sessionFailure.Some? { return false, sessionFailure; }
      ran, rejection := true, outcome;
      if outcome.Some? {
        var reason := Reject(outcome.value);
        rejection := Some(reason);
      }
    }
  }

  function FirstSome(results: seq<Option<string>>): Option<string> {
    if results == [] then None else if results[0].Some? then results[0] else FirstSome(results[1..])
  }

  class DialectRegistry {
    var handles: seq<nat>

    constructor ()
      ensures handles == []
    {
      handles := [];
    }

    method Register(handle: nat)
      modifies this
      ensures handles == old(handles) + [handle]
    {
      handles := handles + [handle];
    }

    // Takes every registered handle and answers the first rejection in registration order.
    method Drain(settled: map<nat, Option<string>>) returns (drained: seq<nat>, error: Option<string>)
      requires forall h :: h in handles ==> h in settled
      modifies this
      ensures drained == old(handles) && handles == []
      ensures forall i :: 0 <= i < |drained| ==> drained[i] in settled
      ensures error == FirstSome(seq(|drained|, i requires 0 <= i < |drained| && drained[i] in settled =>
                                      settled[drained[i]]))
    {
      drained := handles;
      handles := [];
      ghost var results :=
        seq(|drained|, i requires 0 <= i < |drained| && drained[i] in settled => settled[drained[i]]);
      error := None;
      assert results[0..] == results;
      for i := 0 to |drained|
        invariant error == None && FirstSome(results) == FirstSome(results[i..])
      {
        if settled[drained[i]].Some? {
          return drained, settled[drained[i]];
        }
      }
    }
  }

  // The registry's answer is the state machine's drain error.
  function Settlements<A, E>(s: HandleMachine.State<A, E>, order: seq<nat>): seq<Option<string>> {
    seq(|order|, i requires 0 <= i < |order| => SettleResult(s, order[i]))
  }

  function SettleResult<A, E>(s: HandleMachine.State<A, E>, h: nat): Option<string> {
    if h >= |s.handles| then None
    else if HandleMachine.TailRejected(s.handles[h]) then s.handles[h].rejected
    else if s.handles[h].settlement.SettleRejected? then Some(s.handles[h].settlement.reason)
    else None
  }

  lemma {:induction false} DrainErrorIsFirstRejection<A, E>(s: HandleMachine.State<A, E>, order: seq<nat>)
    ensures HandleMachine.DrainError(s, order) == FirstSome(Settlements(s, order))
  {
    if order != [] {
      assert Settlements(s, order)[1..] == Settlements(s, order[1..]);
      DrainErrorIsFirstRejection(s, order[1..]);
    }
  }
}

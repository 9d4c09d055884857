// Mirroring a package folder: each source becomes one directive, and the buffer is flushed
// before a batch outgrows the emit budget.
module Scaffold {
  import opened Prelude
  import opened Wire
  import opened Directives
  import opened Chunking

  // ---------------------------------------------------------------- classifying a source

  // What the disk says about one source: the hygiene verdict, its size, and its text, which is
  // absent for content that is not valid text.
  datatype Source = Rejected | Unreadable(size: nat) | File(size: nat, text: Option<string>)

  datatype Failure = SourceRejected | SourceUnreadable | InvalidInput | OptionsNotEncodable | OutsideTarget

  datatype Verdict = ByValue(content: string) | ByReference | Failed(failure: Failure)

  // One entry of the filename pipeline's result.
  datatype Entry = Entry(from: string, destRel: string, dest: string, rendered: bool, source: Source)

  // A source marked for rendering never degrades to a copy.
  function Degrade(rendered: bool): Verdict {
    if rendered then Failed(InvalidInput) else ByReference
  }

  // What is measured is the directive that would be emitted.
  function Measured(create: Directive, rendered: bool): Verdict
    requires create.Create?
  {
    if !Fits([create]) then Degrade(rendered) else ByValue(create.template)
  }

  // `options` is what `encodeOptions` returns; absent when it throws.
  function ClassifyTransport(e: Entry, options: Option<Json>, force: Option<bool>): Verdict {
    if e.source.Rejected? then Failed(SourceRejected)
    else if e.source.size > EmitBatchBudget() then Degrade(e.rendered)
    else if e.source.Unreadable? then Failed(SourceUnreadable)
    else if e.source.text.None? then Degrade(e.rendered)
    else if options.None? then Failed(OptionsNotEncodable)
    else Measured(Create(e.dest, e.source.text.value, options.value, force), e.rendered)
  }

  datatype Outcome = Emit(directive: Directive) | Throw(failure: Failure)

  function Lower(e: Entry, options: Option<Json>, force: Option<bool>, inside: string -> bool): Outcome {
    if !inside(e.destRel) then Throw(OutsideTarget)
    else
      var verdict := ClassifyTransport(e, options, force);
      if verdict.Failed? then Throw(verdict.failure)
      else if !inside(e.dest) then Throw(OutsideTarget)
      else if verdict.ByReference? then Emit(CopyIn(e.from, e.dest, force))
      else if options.None? then Throw(OptionsNotEncodable)
      else Emit(Create(e.dest, verdict.content, options.value, force))
  }

  // The directives of the entries up to the first that throws.
  function LowerAll(
      entries: seq<Entry>, options: Option<Json>, force: Option<bool>, inside: string -> bool)
    : (seq<Directive>, Option<Failure>)
  {
    if entries == [] then ([], None)
    else
      match Lower(entries[0], options, force, inside)
      case Throw(failure) => ([], Some(failure))
      case Emit(directive) =>
        var (rest, failure) := LowerAll(entries[1..], options, force, inside);
        ([directive] + rest, failure)
  }

  // ---------------------------------------------------------------- every batch is accepted

  // A lone copy-in may be over the budget by its paths alone; nothing else may.
  ghost predicate Admissible(batch: seq<Directive>) {
    Fits(batch) || (|batch| == 1 && batch[0].CopyIn?)
  }

  lemma LowerIsAdmissible(e: Entry, options: Option<Json>, force: Option<bool>, inside: string -> bool)
    requires Lower(e, options, force, inside).Emit?
    ensures Admissible([Lower(e, options, force, inside).directive])
  {
    if ClassifyTransport(e, options, force).ByValue? { ByValueFits(e, options, force); }
  }

  // The classifier measures the very directive that is emitted.
  lemma ByValueFits(e: Entry, options: Option<Json>, force: Option<bool>)
    requires ClassifyTransport(e, options, force).ByValue?
    ensures options.Some?
    ensures Fits([Create(e.dest, ClassifyTransport(e, options, force).content, options.value, force)])
  {
    MeasuredFits(Create(e.dest, e.source.text.value, options.value, force), e.rendered);
  }

  // Whether the source's text can travel in the directive itself.
  ghost predicate Carries(e: Entry, options: Option<Json>, force: Option<bool>) {
    && e.source.File? && e.source.size <= EmitBatchBudget() && e.source.text.Some? && options.Some?
    && Fits([Create(e.dest, e.source.text.value, options.value, force)])
  }

  // Whether it is too large, not text, or too large once it is written into a directive.
  ghost predicate MustBeCopied(e: Entry, options: Option<Json>, force: Option<bool>) {
    && !e.source.Rejected?
    && (e.source.size > EmitBatchBudget()
        || (e.source.File? && (e.source.text.None? || (options.Some? && !Carries(e, options, force)))))
  }

  lemma VerdictIsExact(e: Entry, options: Option<Json>, force: Option<bool>)
    ensures var verdict := ClassifyTransport(e, options, force);
            && (verdict.ByValue? <==> Carries(e, options, force))
            && (verdict.ByValue? ==> verdict.content == e.source.text.value)
            && (verdict.ByReference? <==> MustBeCopied(e, options, force) && !e.rendered)
  {
  }

  // A source inside the target becomes a create with its own text exactly when that fits a batch of
  // its own, and a copy exactly when it does not and is not to be rendered; everything else throws.
  lemma EntryEmitsExactly(e: Entry, options: Option<Json>, force: Option<bool>, inside: string -> bool)
    ensures var within := inside(e.destRel) && inside(e.dest);
            var outcome := Lower(e, options, force, inside);
            && (outcome.Emit? && outcome.directive.Create? <==> within && Carries(e, options, force))
            && (outcome.Emit? && outcome.directive.Create? ==>
                  outcome.directive == Create(e.dest, e.source.text.value, options.value, force))
            && (outcome.Emit? && outcome.directive.CopyIn? <==>
                  within && MustBeCopied(e, options, force) && !e.rendered)
            && (outcome.Emit? && outcome.directive.CopyIn? ==> outcome.directive == CopyIn(e.from, e.dest, force))
            && (outcome.Emit? ==> outcome.directive.Create? || outcome.directive.CopyIn?)
  {
    VerdictIsExact(e, options, force);
  }

  // The entries before the first that throws are emitted one for one and in order; the scaffold
  // fails exactly when one throws, and with that one's failure.
  lemma {:induction false} LoweredInOrder(
      entries: seq<Entry>, options: Option<Json>, force: Option<bool>, inside: string -> bool)
    ensures var (directives, failure) := LowerAll(entries, options, force, inside);
            && |directives| <= |entries| && (failure.None? <==> |directives| == |entries|)
            && (forall i :: 0 <= i < |directives| ==> Lower(entries[i], options, force, inside) == Emit(directives[i]))
            && (failure.Some? ==> Lower(entries[|directives|], options, force, inside) == Throw(failure.value))
    decreases |entries|
  {
    if entries != [] && Lower(entries[0], options, force, inside).Emit? {
      LoweredInOrder(entries[1..], options, force, inside);
    }
  }

  lemma MeasuredFits(create: Directive, rendered: bool)
    requires create.Create? && Measured(create, rendered).ByValue?
    ensures Fits([create]) && Measured(create, rendered).content == create.template
  {
  }

  lemma {:induction false} LoweredAreAdmissible(
      entries: seq<Entry>, options: Option<Json>, force: Option<bool>, inside: string -> bool)
    ensures EachAlone(Admissible, LowerAll(entries, options, force, inside).0)
    decreases |entries|
  {
    if entries != [] && Lower(entries[0], options, force, inside).Emit? {
      LowerIsAdmissible(entries[0], options, force, inside);
      LoweredAreAdmissible(entries[1..], options, force, inside);
      var d, rest := Lower(entries[0], options, force, inside).directive,
                     LowerAll(entries[1..], options, force, inside).0;
      assert ([d] + rest)[0] == d && ([d] + rest)[1..] == rest;
    }
  }

  // What the author had buffered before goes out with the first flush; every later batch holds
  // scaffold directives only.
  lemma ScaffoldBatchesAreAccepted(
      b: Buffer<Directive>, entries: seq<Entry>, options: Option<Json>, force: Option<bool>, inside: string -> bool)
    ensures var after := AppendAll(Fits, b, LowerAll(entries, options, force, inside).0);
            && AllFrom(Admissible, after.batches, |b.batches| + if b.pending == [] then 0 else 1)
            && (after.pending != [] && (b.pending == [] || |after.batches| > |b.batches|) ==> Admissible(after.pending))
  {
    var directives := LowerAll(entries, options, force, inside).0;
    LoweredAreAdmissible(entries, options, force, inside);
    if b.pending == [] {
      BatchesStay(Fits, Admissible, b, directives, |b.batches|);
    } else {
      FirstFlush(Fits, Admissible, b, directives);
    }
  }

  // ---------------------------------------------------------------- the loop

  class Session {
    var batches: seq<seq<Directive>>
    var pending: seq<Directive>

    constructor ()
      ensures batches == [] && pending == []
    {
      batches, pending := [], [];
    }

    function State(): Buffer<Directive>
      reads this
    {
      Buffer(batches, pending)
    }

    method BufferDirective(d: Directive)
      modifies this
      ensures pending == old(pending) + [d] && batches == old(batches)
    {
      pending := pending + [d];
    }

    method Flush()
      modifies this
      ensures pending == [] && batches == if old(pending) == [] then old(batches) else old(batches) + [old(pending)]
    {
      if |pending| == 0 { return; }
      batches := batches + [pending];
      pending := [];
    }

    // One turn of the scaffold loop: flush when the directive would not fit, then buffer it.
    method Take(directive: Directive, pendingCount: nat, pendingSize: nat) returns (count: nat, size: nat)
      requires pendingCount == |pending| && pendingSize == BatchSize(pending)
      modifies this
      ensures State() == Append(Fits, old(State()), directive)
      ensures count == |pending| && size == BatchSize(pending)
    {
      count, size := pendingCount, pendingSize;
      var directiveSize := Size(ToJson(directive));
      Grows(pending, directive);
      if count > 0 && size + directiveSize + 1 > EmitBatchBudget() {
        Flush();
        count, size := 0, SerializedBatchSize([]);
        Grows([], directive);
      }
      BufferDirective(directive);
      count := count + 1;
      size := size + directiveSize + (if count > 1 then 1 else 0);
    }
  }

  // The running count and size stand for the pending buffer throughout.
  method RunScaffold(
      session: Session, entries: seq<Entry>, options: Option<Json>, force: Option<bool>, inside: string -> bool)
    returns (failure: Option<Failure>)
    modifies session
    ensures session.State() == AppendAll(Fits, old(session.State()), LowerAll(entries, options, force, inside).0)
    ensures failure == LowerAll(entries, options, force, inside).1
  {
    var pendingCount, pendingSize := |session.pending|, BatchSize(session.pending);
    ghost var start := session.State();
    for i := 0 to |entries|
      invariant pendingCount == |session.pending| && pendingSize == BatchSize(session.pending)
      invariant AppendAll(Fits, start, LowerAll(entries, options, force, inside).0)
             == AppendAll(Fits, session.State(), LowerAll(entries[i..], options, force, inside).0)
      invariant LowerAll(entries, options, force, inside).1 == LowerAll(entries[i..], options, force, inside).1
    {
      assert entries[i..][0] == entries[i] && entries[i..][1..] == entries[i + 1..];
      var outcome := Lower(entries[i], options, force, inside);
      if outcome.Throw? { return Some(outcome.failure); }
      var directive := outcome.directive;
      LowerCons(entries, i, options, force, inside);
      pendingCount, pendingSize := session.Take(directive, pendingCount, pendingSize);
    }
    assert entries[|entries|..] == [];
    return None;
  }

  lemma Grows(pending: seq<Directive>, d: Directive)
    ensures BatchSize(pending + [d]) == BatchSize(pending) + Size(ToJson(d)) + if pending == [] then 0 else 1
  {
    JsonsSnoc(pending, d);
    BatchGrowsBy(Jsons(pending), ToJson(d));
  }

  lemma LowerCons(entries: seq<Entry>, i: nat, options: Option<Json>, force: Option<bool>, inside: string -> bool)
    requires i < |entries| && Lower(entries[i], options, force, inside).Emit?
    ensures LowerAll(entries[i..], options, force, inside).0
         == [Lower(entries[i], options, force, inside).directive] + LowerAll(entries[i + 1..], options, force, inside).0
    ensures LowerAll(entries[i..], options, force, inside).1 == LowerAll(entries[i + 1..], options, force, inside).1
    ensures forall b :: AppendAll(Fits, b, LowerAll(entries[i..], options, force, inside).0)
                     == AppendAll(Fits, Append(Fits, b, Lower(entries[i], options, force, inside).directive),
                                  LowerAll(entries[i + 1..], options, force, inside).0)
  {
    assert entries[i..][0] == entries[i] && entries[i..][1..] == entries[i + 1..];
    var d, rest := Lower(entries[i], options, force, inside).directive,
                   LowerAll(entries[i + 1..], options, force, inside).0;
    assert ([d] + rest)[0] == d && ([d] + rest)[1..] == rest;
  }
}

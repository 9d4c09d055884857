// Rejections at the engine port, their form on the wire, and the author's view of them.
module EmitRejection {
  import opened Prelude
  import opened Directives

  datatype Code = Collision | NotFound | Unrepresentable | Cap | Unknown

  datatype Rejection = Rejection(code: Code, failedIndex: Option<nat>, appliedCount: int)

  predicate DirectiveLevel(code: Code) {
    code.Collision? || code.NotFound?
  }

  // A directive is blamed exactly by the codes that have one to blame.
  predicate InContract(r: Rejection) {
    DirectiveLevel(r.code) <==> r.failedIndex.Some?
  }

  // ---------------------------------------------------------------- on the wire

  // What a host may put in the index field; `Junk` is a fraction, a negative number or no number.
  datatype WireIndex = Absent | Index(n: nat) | Junk

  // The payload of an error response. An unknown code is any string outside the closed set.
  datatype WireError = WireError(code: Option<Code>, failedIndex: WireIndex, appliedCount: Option<int>)

  function Reconstruct(e: WireError): (r: Rejection)
    ensures InContract(r)
  {
    if e.code.None? then Rejection(Unknown, None, 0)
    else
      var code := e.code.value;
      if (DirectiveLevel(code) && !e.failedIndex.Index?) || (!DirectiveLevel(code) && !e.failedIndex.Absent?) then
        Rejection(Unknown, None, 0)
      else if DirectiveLevel(code) then
        Rejection(code, Some(e.failedIndex.n), if e.appliedCount.Some? then e.appliedCount.value else 0)
      else
        Rejection(code, None, 0)
  }

  // ---------------------------------------------------------------- for the author

  datatype Verb = CreateVerb | ModifyVerb | RemoveVerb | RenameVerb | MoveVerb | CopyVerb | CopyInVerb

  datatype Reason =
    | PathCollision | PathNotFound | UnrepresentableContent | ChangesTooLarge | UnknownReason
    | OutsideSession | InvalidInput | ReservedName | SourceNotFound | SourceNotRegularFile | SourceUnreadable

  datatype Origin = WriteRejected | AuthoringRejected

  datatype AuthoringError =
    AuthoringError(verb: Option<Verb>, path: Option<string>, reason: Reason, origin: Origin, appliedCount: int)

  function OriginFor(reason: Reason): Origin {
    if reason.PathCollision? || reason.PathNotFound? || reason.UnrepresentableContent?
       || reason.ChangesTooLarge? || reason.UnknownReason? then WriteRejected
    else AuthoringRejected
  }

  function ReasonFor(code: Code): Reason {
    match code
    case Collision => PathCollision
    case NotFound => PathNotFound
    case Unrepresentable => UnrepresentableContent
    case Cap => ChangesTooLarge
    case Unknown => UnknownReason
  }

  function VerbFor(d: Directive): Verb {
    match d
    case Create(_, _, _, _) => CreateVerb
    case Modify(_, _) => ModifyVerb
    case Delete(_) => RemoveVerb
    case Rename(_, _, _) => RenameVerb
    case Move(_, _, _) => MoveVerb
    case Copy(_, _, _) => CopyVerb
    case CopyIn(_, _, _) => CopyInVerb
  }

  // The path the author named: the source side, never a computed destination.
  function PrimaryPath(d: Directive): string {
    match d
    case Create(path, _, _, _) => path
    case Modify(path, _) => path
    case Delete(path) => path
    case Rename(path, _, _) => path
    case Move(path, _, _) => path
    case Copy(from, _, _) => from
    case CopyIn(from, _, _) => from
  }

  // What the client threw: a rejection, possibly with a code outside the closed set, or anything else.
  datatype Raw = Rejected(code: Option<Code>, failedIndex: Option<nat>, appliedCount: int) | Other

  function ToAuthoringError(raw: Raw, instructions: seq<Directive>): (e: AuthoringError)
    ensures e.origin == WriteRejected
  {
    match raw
    case Other => AuthoringError(None, None, UnknownReason, OriginFor(UnknownReason), 0)
    case Rejected(code, failedIndex, appliedCount) =>
      var reason := if code.Some? then ReasonFor(code.value) else UnknownReason;
      if failedIndex.Some? && failedIndex.value < |instructions| then
        var offender := instructions[failedIndex.value];
        AuthoringError(Some(VerbFor(offender)), Some(PrimaryPath(offender)), reason, OriginFor(reason), appliedCount)
      else AuthoringError(None, None, reason, OriginFor(reason), appliedCount)
  }

  function Raised(r: Rejection): Raw {
    Rejected(Some(r.code), r.failedIndex, r.appliedCount)
  }

  // From the host's payload to the author: a directive is named exactly when the payload blames one
  // inside the batch, and it is that one.
  lemma WireErrorReachesTheAuthor(e: WireError, instructions: seq<Directive>)
    ensures var seen := ToAuthoringError(Raised(Reconstruct(e)), instructions);
            && (seen.path.Some? <==>
                  e.code.Some? && DirectiveLevel(e.code.value) && e.failedIndex.Index?
                  && e.failedIndex.n < |instructions|)
            && (seen.path.Some? <==> seen.verb.Some?)
            && (seen.path.Some? ==> seen.path.value == PrimaryPath(instructions[e.failedIndex.n]))
            && (seen.path.Some? ==> seen.reason == ReasonFor(e.code.value))
  {
  }
}

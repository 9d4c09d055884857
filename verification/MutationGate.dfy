// The decision a handle takes after an op: is its directive still pending, was it drained,
// did the op change the print?
module MutationGate {
  import opened Prelude

  // A handle's open directive as the gate sees it: its memoized content, and whether the
  // session still buffers it.
  datatype OpenView = NoOpen | Open(content: Option<string>, pending: bool)

  datatype GateResult = GateResult(
    forces: bool,     // the drained directive's getter is evaluated now
    closes: bool,     // the drained directive is let go
    registers: bool,  // a fresh directive is buffered
    last: string)     // the new baseline

  function Gate(open: OpenView, last: string, printed: string): GateResult {
    if open.Open? && open.pending then GateResult(false, false, false, last)
    else
      var baseline := if open.NoOpen? then last else if open.content.Some? then open.content.value else printed;
      GateResult(open.Open?, open.Open?, printed != baseline, baseline)
  }
}

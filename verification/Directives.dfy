// The seven wire directives and the JSON they serialize to.
module Directives {
  import opened Prelude
  import opened Wire

  datatype Directive =
    | Create(pathTemplate: string, template: string, options: Json, force: Option<bool>)
    | Modify(path: string, content: string)
    | Delete(path: string)
    | Rename(path: string, newName: string, force: Option<bool>)
    | Move(path: string, toDir: string, force: Option<bool>)
    | Copy(from: string, target: string, force: Option<bool>)
    | CopyIn(from: string, target: string, force: Option<bool>)

  // An absent force has no key at all.
  function ForceEntry(force: Option<bool>): seq<Field> {
    if force.Some? then [Field("force", Bool(force.value))] else []
  }

  function Tagged(op: string, fields: seq<Field>): Json {
    Object([Field("op", Text(op)), Field(op, Object(fields))])
  }

  function ToJson(d: Directive): Json {
    match d
    case Create(path, template, options, force) =>
      Tagged("create", [Field("pathTemplate", Text(path)), Field("template", Text(template)), Field("options", options)]
                       + ForceEntry(force))
    case Modify(path, content) => Tagged("modify", [Field("path", Text(path)), Field("content", Text(content))])
    case Delete(path) => Tagged("delete", [Field("path", Text(path))])
    case Rename(path, newName, force) =>
      Tagged("rename", [Field("path", Text(path)), Field("newName", Text(newName))] + ForceEntry(force))
    case Move(path, toDir, force) =>
      Tagged("move", [Field("path", Text(path)), Field("toDir", Text(toDir))] + ForceEntry(force))
    case Copy(from, target, force) =>
      Tagged("copy", [Field("from", Text(from)), Field("to", Text(target))] + ForceEntry(force))
    case CopyIn(from, target, force) =>
      Tagged("copyIn", [Field("from", Text(from)), Field("to", Text(target))] + ForceEntry(force))
  }

  function Jsons(directives: seq<Directive>): (r: seq<Json>)
    ensures |r| == |directives|
  {
    if directives == [] then [] else Jsons(directives[..|directives| - 1]) + [ToJson(directives[|directives| - 1])]
  }

  lemma JsonsSnoc(directives: seq<Directive>, d: Directive)
    ensures Jsons(directives + [d]) == Jsons(directives) + [ToJson(d)]
  {
    assert (directives + [d])[..|directives|] == directives;
  }

  // What a batch of these directives serializes to, in bytes.
  function BatchSize(directives: seq<Directive>): nat {
    SerializedBatchSize(Jsons(directives))
  }

  predicate Fits(directives: seq<Directive>) {
    BatchSize(directives) <= EmitBatchBudget()
  }

  // Fitting the budget is what the emit authority accepts.
  lemma FitsIsAccepted(directives: seq<Directive>)
    ensures Fits(directives) <==> !ExceedsEmitBatchBudget(Batch(false, Jsons(directives)))
  {
    BudgetIsExact(Batch(false, Jsons(directives)));
  }
}

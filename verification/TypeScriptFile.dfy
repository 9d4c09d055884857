// The import operations on a live file: each either rejects before touching it, or edits it in
// place.
module TypeScriptFile {
  import opened Prelude
  import opened Imports
  import opened ImportOps

  // What a call did: rejected, with the file as it was, or accepted.
  ghost predicate Did(accepted: bool, change: Change, before: File, after: File) {
    && (accepted <==> change.Some?)
    && after == if accepted then change.value else before
  }

  class SourceFile {
    var imports: seq<Import>
    var exports: seq<Export>
    const locals: Locals

    constructor (f: File)
      ensures State() == f
    {
      imports, exports, locals := f.imports, f.exports, f.locals;
    }

    function State(): File
      reads this
    {
      File(imports, exports, locals)
    }

    method FindImport(wanted: Import -> bool) returns (i: nat)
      ensures i == FirstOf(imports, wanted)
    {
      i := 0;
      while i < |imports| && !wanted(imports[i])
        invariant i <= |imports| && forall k :: 0 <= k < i ==> !wanted(imports[k])
      {
        i := i + 1;
      }
    }

    method FindExport(wanted: Export -> bool) returns (i: nat)
      ensures i == FirstOf(exports, wanted)
    {
      i := 0;
      while i < |exports| && !wanted(exports[i])
        invariant i <= |exports| && forall k :: 0 <= k < i ==> !wanted(exports[k])
      {
        i := i + 1;
      }
    }

    // Whether any import binds `name`, or a local value has it.
    method IsBindingClaimed(name: string) returns (claimed: bool)
      ensures claimed <==> Claimed(State(), name)
    {
      if name in locals.values { return true; }
      claimed := false;
      for i := 0 to |imports|
        invariant name in AllNames(imports) <==> claimed || name in AllNames(imports[i..])
      {
        assert imports[i..][0] == imports[i] && imports[i..][1..] == imports[i + 1..];
        if name in BoundNames(imports[i]) { claimed := true; }
      }
      assert imports[|imports|..] == [];
    }

    method InsertImport(d: Import, place: nat)
      modifies this`imports
      ensures State() == Fresh(old(State()), d, place)
    {
      var at := if place < |imports| then place else |imports|;
      imports := imports[..at] + [d] + imports[at..];
    }

    method AddImport(
        lower: string -> string, valid: string -> bool, name: string, from: string, sorted: bool, place: nat)
      returns (accepted: bool)
      modifies this`imports
      ensures Did(accepted, Perform(lower, valid, old(State()), Call.AddImport(name, from, sorted), place),
                old(State()), State())
    {
      if !valid(name) { return false; }
      for i := 0 to |imports|
        invariant imports == old(imports)
        invariant forall k :: 0 <= k < i ==> !(imports[k].from == from && Satisfies(imports[k], name))
      {
        if imports[i].from == from && Satisfies(imports[i], name) { return true; }
      }
      var claimed := IsBindingClaimed(name);
      if claimed { return false; }
      var target := FindImport(TakesNamed(from));
      if target < |imports| {
        imports := imports[target := WithName(lower, imports[target], name, sorted)];
      } else {
        InsertImport(Import(from, Some(Clause(false, None, Named([Specifier(name, None, false)], false)))), place);
      }
      return true;
    }

    method AddDefaultImport(lower: string -> string, valid: string -> bool, name: string, from: string, place: nat)
      returns (accepted: bool)
      modifies this`imports
      ensures Did(accepted, Perform(lower, valid, old(State()), AddDefault(name, from), place), old(State()), State())
    {
      if !valid(name) { return false; }
      var existing := FindImport(HasDefault(from));
      if existing < |imports| {
        return imports[existing].clause.value.default.value == name;
      }
      var claimed := IsBindingClaimed(name);
      if claimed { return false; }
      var target := FindImport(TakesDefault(from));
      if target < |imports| {
        var clause := imports[target].clause.value.(default := Some(name));
        imports := imports[target := imports[target].(clause := Some(clause))];
      } else {
        InsertImport(Import(from, Some(Clause(false, Some(name), NoBindings))), place);
      }
      return true;
    }

    method AddNamespaceImport(lower: string -> string, valid: string -> bool, name: string, from: string, place: nat)
      returns (accepted: bool)
      modifies this`imports
      ensures Did(accepted, Perform(lower, valid, old(State()), AddNamespace(name, from), place), old(State()), State())
    {
      if !valid(name) { return false; }
      var existing := FindImport(HasNamespace(from));
      if existing < |imports| {
        return imports[existing].clause.value.bindings.name == name;
      }
      var claimed := IsBindingClaimed(name);
      if claimed { return false; }
      var target := FindImport(TakesNamespace(from));
      if target < |imports| {
        var clause := imports[target].clause.value.(bindings := Namespace(name));
        imports := imports[target := imports[target].(clause := Some(clause))];
      } else {
        InsertImport(Import(from, Some(Clause(false, None, Namespace(name)))), place);
      }
      return true;
    }

    method AddTypeImport(lower: string -> string, valid: string -> bool, name: string, from: string, place: nat)
      returns (accepted: bool)
      modifies this`imports
      ensures Did(accepted, Perform(lower, valid, old(State()), AddType(name, from), place), old(State()), State())
    {
      if !valid(name) { return false; }
      for i := 0 to |imports|
        invariant imports == old(imports)
        invariant forall k :: 0 <= k < i ==> !(imports[k].from == from && ProvidesType(imports[k], name))
      {
        if imports[i].from == from && ProvidesType(imports[i], name) { return true; }
      }
      var claimed := IsBindingClaimed(name);
      if name in locals.types || claimed { return false; }
      InsertImport(Import(from, Some(Clause(true, None, Named([Specifier(name, None, false)], false)))), place);
      return true;
    }

    method AddReExport(lower: string -> string, valid: string -> bool, name: string, from: string)
      returns (accepted: bool)
      modifies this`exports
      ensures Did(accepted, Perform(lower, valid, old(State()), Call.AddReExport(name, from), 0), old(State()), State())
    {
      if !valid(name) { return false; }
      for i := 0 to |exports|
        invariant exports == old(exports)
        invariant forall k :: 0 <= k < i ==> !ReExports(exports[k], from, name)
      {
        if ReExports(exports[i], from, name) { return true; }
      }
      if Exported(State(), name) { return false; }
      var target := FindExport(TakesExport(from));
      var s := Specifier(name, None, false);
      if target < |exports| {
        var e := exports[target];
        exports := exports[target := e.(clause := Names(e.clause.specifiers + [s]))];
      } else {
        exports := exports + [Export(Some(from), false, Names([s]))];
      }
      return true;
    }
  }
}

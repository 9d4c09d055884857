// The operations that add and remove a file's imports and re-exports, and the names they keep
// unique.
module ImportOps {
  import opened Prelude
  import opened Imports
  import ImportOrder

  // What `export ... from` exports: everything, everything under one name, or the listed names.
  datatype ExportClause = All | AllAs(name: string) | Names(specifiers: seq<Specifier>)

  // A local `export { ... }` has no module.
  datatype Export = Export(from: Option<string>, typeOnly: bool, clause: ExportClause)

  // The names a file declares at its top level: values, types, and those it exports itself.
  datatype Locals = Locals(values: set<string>, types: set<string>, exported: set<string>)

  datatype File = File(imports: seq<Import>, exports: seq<Export>, locals: Locals)

  // ---------------------------------------------------------------- bound names

  function LocalName(s: Specifier): string {
    if s.alias.Some? then s.alias.value else s.name
  }

  function NamesOf(specifiers: seq<Specifier>): seq<string> {
    if specifiers == [] then [] else [LocalName(specifiers[0])] + NamesOf(specifiers[1..])
  }

  function BindingNames(b: Bindings): seq<string> {
    match b
    case NoBindings => []
    case Namespace(name) => [name]
    case Named(specifiers, _) => NamesOf(specifiers)
  }

  // Every local name a declaration binds.
  function BoundNames(d: Import): seq<string> {
    if d.clause.None? then []
    else
      (if d.clause.value.default.Some? then [d.clause.value.default.value] else [])
      + BindingNames(d.clause.value.bindings)
  }

  function AllNames(imports: seq<Import>): seq<string> {
    if imports == [] then [] else BoundNames(imports[0]) + AllNames(imports[1..])
  }

  predicate Claimed(f: File, name: string) {
    name in f.locals.values || name in AllNames(f.imports)
  }

  // A named specifier that gives the name of the export it imports.
  predicate OwnName(s: Specifier, name: string) {
    s.name == name && (s.alias.None? || s.alias.value == name)
  }

  // A value binding of `name` by `d` that already is what `addImport` would add.
  predicate Satisfies(d: Import, name: string) {
    d.clause.Some? && !d.clause.value.typeOnly &&
    (d.clause.value.default == Some(name) || d.clause.value.bindings == Namespace(name)
     || exists s :: s in Specifiers(d) && OwnName(s, name) && !s.typeOnly)
  }

  predicate ProvidesType(d: Import, name: string) {
    exists s :: s in Specifiers(d) && OwnName(s, name)
  }

  // ---------------------------------------------------------------- exported names

  function ExportedBy(e: Export): seq<string> {
    match e.clause
    case All => []
    case AllAs(name) => [name]
    case Names(specifiers) => NamesOf(specifiers)
  }

  function AllExported(exports: seq<Export>): seq<string> {
    if exports == [] then [] else ExportedBy(exports[0]) + AllExported(exports[1..])
  }

  predicate Exported(f: File, name: string) {
    name in f.locals.exported || name in AllExported(f.exports)
  }

  // ---------------------------------------------------------------- unique names

  predicate Distinct(names: seq<string>) {
    forall i, j :: 0 <= i < j < |names| ==> names[i] != names[j]
  }

  // No two imports bind one name, and none binds the name of a local value; the same for exports.
  ghost predicate Unique(f: File) {
    && Distinct(AllNames(f.imports)) && (forall n :: n in AllNames(f.imports) ==> n !in f.locals.values)
    && Distinct(AllExported(f.exports)) && (forall n :: n in AllExported(f.exports) ==> n !in f.locals.exported)
  }

  // ---------------------------------------------------------------- finding a declaration

  // The first declaration that can take what is added, or the end.
  function FirstOf<T>(items: seq<T>, wanted: T -> bool): (i: nat)
    ensures i <= |items| && (i < |items| ==> wanted(items[i]))
    ensures forall k :: 0 <= k < i ==> !wanted(items[k])
  {
    if items == [] || wanted(items[0]) then 0 else 1 + FirstOf(items[1..], wanted)
  }

  predicate ValueImport(d: Import, from: string) {
    d.from == from && !(d.clause.Some? && d.clause.value.typeOnly)
  }

  function TakesNamed(from: string): Import -> bool {
    (d: Import) => ValueImport(d, from) && d.clause.Some? && d.clause.value.bindings.Named?
  }

  function TakesDefault(from: string): Import -> bool {
    (d: Import) => ValueImport(d, from) && d.clause.Some?
  }

  function TakesNamespace(from: string): Import -> bool {
    (d: Import) =>
      ValueImport(d, from) && d.clause.Some? && d.clause.value.default.Some? && d.clause.value.bindings.NoBindings?
  }

  function HasDefault(from: string): Import -> bool {
    (d: Import) => ValueImport(d, from) && d.clause.Some? && d.clause.value.default.Some?
  }

  function HasNamespace(from: string): Import -> bool {
    (d: Import) => ValueImport(d, from) && d.clause.Some? && d.clause.value.bindings.Namespace?
  }

  // ---------------------------------------------------------------- the operations

  // `None` is a rejection: the file stays as it is. `place` is where a fresh declaration goes.
  type Change = Option<File>

  datatype Call =
    | AddImport(name: string, from: string, sorted: bool)
    | AddDefault(name: string, from: string)
    | AddNamespace(name: string, from: string)
    | AddType(name: string, from: string)
    | AddSideEffect(from: string)
    | RemoveImport(name: string, from: string)
    | AddReExport(name: string, from: string)
    | AddExportAll(from: string, alias: Option<string>)
    | RemoveExport(name: string, from: string)

  function Fresh(f: File, d: Import, place: nat): File {
    var at := if place < |f.imports| then place else |f.imports|;
    f.(imports := f.imports[..at] + [d] + f.imports[at..])
  }

  function WithName(lower: string -> string, d: Import, name: string, sorted: bool): Import
    requires d.clause.Some? && d.clause.value.bindings.Named?
  {
    var b := d.clause.value.bindings;
    var at := if sorted then ImportOrder.SortedIndex(lower, b.specifiers, name) else |b.specifiers|;
    var specifiers := b.specifiers[..at] + [Specifier(name, None, false)] + b.specifiers[at..];
    d.(clause := Some(d.clause.value.(bindings := b.(specifiers := specifiers))))
  }

  function AddImportTo(lower: string -> string, f: File, name: string, from: string, sorted: bool, place: nat): Change {
    if exists d :: d in f.imports && d.from == from && Satisfies(d, name) then Some(f)
    else if Claimed(f, name) then None
    else
      var i := FirstOf(f.imports, TakesNamed(from));
      if i < |f.imports| then Some(f.(imports := f.imports[i := WithName(lower, f.imports[i], name, sorted)]))
      else Some(Fresh(f, Import(from, Some(Clause(false, None, Named([Specifier(name, None, false)], false)))), place))
  }

  function AddDefaultTo(f: File, name: string, from: string, place: nat): Change {
    var existing := FirstOf(f.imports, HasDefault(from));
    if existing < |f.imports| then
      if f.imports[existing].clause.value.default == Some(name) then Some(f) else None
    else if Claimed(f, name) then None
    else
      var i := FirstOf(f.imports, TakesDefault(from));
      if i < |f.imports| then
        Some(f.(imports :=
            f.imports[i := f.imports[i].(clause := Some(f.imports[i].clause.value.(default := Some(name))))]))
      else Some(Fresh(f, Import(from, Some(Clause(false, Some(name), NoBindings))), place))
  }

  function AddNamespaceTo(f: File, name: string, from: string, place: nat): Change {
    var existing := FirstOf(f.imports, HasNamespace(from));
    if existing < |f.imports| then
      if f.imports[existing].clause.value.bindings == Namespace(name) then Some(f) else None
    else if Claimed(f, name) then None
    else
      var i := FirstOf(f.imports, TakesNamespace(from));
      if i < |f.imports| then
        Some(f.(imports :=
            f.imports[i := f.imports[i].(clause := Some(f.imports[i].clause.value.(bindings := Namespace(name))))]))
      else Some(Fresh(f, Import(from, Some(Clause(false, None, Namespace(name)))), place))
  }

  function AddTypeTo(f: File, name: string, from: string, place: nat): Change {
    if exists d :: d in f.imports && d.from == from && ProvidesType(d, name) then Some(f)
    else if name in f.locals.types || Claimed(f, name) then None
    else Some(Fresh(f, Import(from, Some(Clause(true, None, Named([Specifier(name, None, false)], false)))), place))
  }

  function AddSideEffectTo(f: File, from: string, place: nat): Change {
    if Import(from, None) in f.imports then Some(f) else Some(Fresh(f, Import(from, None), place))
  }

  function NamedAs(name: string): Specifier -> bool {
    (s: Specifier) => s.name == name
  }

  function ImportsName(from: string, name: string): Import -> bool {
    (d: Import) => d.from == from && exists s :: s in Specifiers(d) && s.name == name
  }

  // The whole declaration goes with its only binding.
  function RemoveImportFrom(f: File, name: string, from: string): Change {
    var i := FirstOf(f.imports, ImportsName(from, name));
    if i == |f.imports| then Some(f)
    else
      var d := f.imports[i];
      var k := FirstOf(Specifiers(d), NamedAs(name));
      if |Specifiers(d)| == 1 && d.clause.value.default.None? then
        Some(f.(imports := f.imports[..i] + f.imports[i + 1..]))
      else if k < |Specifiers(d)| then
        var b := d.clause.value.bindings.(specifiers := Specifiers(d)[..k] + Specifiers(d)[k + 1..]);
        Some(f.(imports := f.imports[i := d.(clause := Some(d.clause.value.(bindings := b)))]))
      else Some(f)
  }

  predicate ReExports(e: Export, from: string, name: string) {
    e.from == Some(from) && !e.typeOnly && e.clause.Names?
    && exists s :: s in e.clause.specifiers && s.name == name && !s.typeOnly
  }

  function TakesExport(from: string): Export -> bool {
    (e: Export) => e.from == Some(from) && !e.typeOnly && e.clause.Names?
  }

  function AddReExportTo(f: File, name: string, from: string): Change {
    if exists e :: e in f.exports && ReExports(e, from, name) then Some(f)
    else if Exported(f, name) then None
    else
      var i := FirstOf(f.exports, TakesExport(from));
      if i < |f.exports| then
        var e := f.exports[i];
        Some(f.(exports := f.exports[i := e.(clause := Names(e.clause.specifiers + [Specifier(name, None, false)]))]))
      else Some(f.(exports := f.exports + [Export(Some(from), false, Names([Specifier(name, None, false)]))]))
  }

  function ExportAllClause(alias: Option<string>): ExportClause {
    if alias.Some? then AllAs(alias.value) else All
  }

  function AddExportAllTo(f: File, from: string, alias: Option<string>): Change {
    var e := Export(Some(from), false, ExportAllClause(alias));
    if e in f.exports then Some(f)
    else if alias.Some? && Exported(f, alias.value) then None
    else Some(f.(exports := f.exports + [e]))
  }

  function ExportsName(from: string, name: string): Export -> bool {
    (e: Export) => e.from == Some(from) && e.clause.Names? && exists s :: s in e.clause.specifiers && s.name == name
  }

  function RemoveExportFrom(f: File, name: string, from: string): Change {
    var i := FirstOf(f.exports, ExportsName(from, name));
    if i == |f.exports| then Some(f)
    else
      var e := f.exports[i];
      var k := FirstOf(e.clause.specifiers, NamedAs(name));
      if |e.clause.specifiers| == 1 then Some(f.(exports := f.exports[..i] + f.exports[i + 1..]))
      else if k < |e.clause.specifiers| then
        Some(f.(exports :=
            f.exports[i := e.(clause := Names(e.clause.specifiers[..k] + e.clause.specifiers[k + 1..]))]))
      else Some(f)
  }

  // The name a call validates first of all.
  function Validated(c: Call): Option<string> {
    match c
    case AddSideEffect(_) => None
    case AddExportAll(_, alias) => alias
    case _ => Some(c.name)
  }

  function Execute(lower: string -> string, f: File, c: Call, place: nat): Change {
    match c
    case AddImport(name, from, sorted) => AddImportTo(lower, f, name, from, sorted, place)
    case AddDefault(name, from) => AddDefaultTo(f, name, from, place)
    case AddNamespace(name, from) => AddNamespaceTo(f, name, from, place)
    case AddType(name, from) => AddTypeTo(f, name, from, place)
    case AddSideEffect(from) => AddSideEffectTo(f, from, place)
    case RemoveImport(name, from) => RemoveImportFrom(f, name, from)
    case AddReExport(name, from) => AddReExportTo(f, name, from)
    case AddExportAll(from, alias) => AddExportAllTo(f, from, alias)
    case RemoveExport(name, from) => RemoveExportFrom(f, name, from)
  }

  // A name that fails validation rejects whatever else holds.
  function Perform(lower: string -> string, valid: string -> bool, f: File, c: Call, place: nat): Change {
    if Validated(c).Some? && !valid(Validated(c).value) then None else Execute(lower, f, c, place)
  }

  datatype Placed = Placed(call: Call, place: nat)

  // Any calls, in any places; a rejected one leaves the file alone.
  function Run(lower: string -> string, valid: string -> bool, f: File, calls: seq<Placed>): File
    decreases |calls|
  {
    if calls == [] then f
    else
      var next := Perform(lower, valid, f, calls[0].call, calls[0].place);
      Run(lower, valid, if next.Some? then next.value else f, calls[1..])
  }

  // ---------------------------------------------------------------- names under edits

  lemma {:induction false} NamesAppend(a: seq<Specifier>, b: seq<Specifier>)
    ensures NamesOf(a + b) == NamesOf(a) + NamesOf(b)
  {
    if a == [] {
      assert a + b == b;
    } else {
      assert (a + b)[1..] == a[1..] + b;
      NamesAppend(a[1..], b);
    }
  }

  lemma {:induction false} AllNamesAppend(a: seq<Import>, b: seq<Import>)
    ensures AllNames(a + b) == AllNames(a) + AllNames(b)
  {
    if a == [] {
      assert a + b == b;
    } else {
      assert (a + b)[1..] == a[1..] + b;
      AllNamesAppend(a[1..], b);
    }
  }

  lemma {:induction false} AllExportedAppend(a: seq<Export>, b: seq<Export>)
    ensures AllExported(a + b) == AllExported(a) + AllExported(b)
  {
    if a == [] {
      assert a + b == b;
    } else {
      assert (a + b)[1..] == a[1..] + b;
      AllExportedAppend(a[1..], b);
    }
  }

  lemma OneImport(d: Import)
    ensures AllNames([d]) == BoundNames(d)
  {
    assert [d][1..] == [];
  }

  lemma OneExport(e: Export)
    ensures AllExported([e]) == ExportedBy(e)
  {
    assert [e][1..] == [];
  }

  lemma OneName(s: Specifier)
    ensures NamesOf([s]) == [LocalName(s)]
  {
    assert [s][1..] == [];
  }

  // The names around declaration `i`, with `middle` in its place.
  lemma ImportsAround(imports: seq<Import>, i: nat, d: Import)
    requires i < |imports|
    ensures AllNames(imports) == AllNames(imports[..i]) + BoundNames(imports[i]) + AllNames(imports[i + 1..])
    ensures AllNames(imports[i := d]) == AllNames(imports[..i]) + BoundNames(d) + AllNames(imports[i + 1..])
    ensures AllNames(imports[..i] + imports[i + 1..]) == AllNames(imports[..i]) + AllNames(imports[i + 1..])
  {
    assert imports == imports[..i] + [imports[i]] + imports[i + 1..];
    assert imports[i := d] == imports[..i] + [d] + imports[i + 1..];
    OneImport(imports[i]);
    OneImport(d);
    AllNamesAppend(imports[..i], [imports[i]]);
    AllNamesAppend(imports[..i] + [imports[i]], imports[i + 1..]);
    AllNamesAppend(imports[..i], [d]);
    AllNamesAppend(imports[..i] + [d], imports[i + 1..]);
    AllNamesAppend(imports[..i], imports[i + 1..]);
  }

  lemma ExportsAround(exports: seq<Export>, i: nat, e: Export)
    requires i < |exports|
    ensures AllExported(exports) == AllExported(exports[..i]) + ExportedBy(exports[i]) + AllExported(exports[i + 1..])
    ensures AllExported(exports[i := e]) == AllExported(exports[..i]) + ExportedBy(e) + AllExported(exports[i + 1..])
    ensures AllExported(exports[..i] + exports[i + 1..]) == AllExported(exports[..i]) + AllExported(exports[i + 1..])
  {
    assert exports == exports[..i] + [exports[i]] + exports[i + 1..];
    assert exports[i := e] == exports[..i] + [e] + exports[i + 1..];
    OneExport(exports[i]);
    OneExport(e);
    AllExportedAppend(exports[..i], [exports[i]]);
    AllExportedAppend(exports[..i] + [exports[i]], exports[i + 1..]);
    AllExportedAppend(exports[..i], [e]);
    AllExportedAppend(exports[..i] + [e], exports[i + 1..]);
    AllExportedAppend(exports[..i], exports[i + 1..]);
  }

  // Some order of `before` with `name` put in somewhere.
  ghost predicate Gains(before: seq<string>, after: seq<string>, name: string) {
    exists p: seq<string>, q: seq<string> :: Around(p, q, before, after, name)
  }

  ghost predicate Around(p: seq<string>, q: seq<string>, before: seq<string>, after: seq<string>, name: string) {
    before == p + q && after == p + [name] + q
  }

  // `before` without one stretch of names.
  ghost predicate Loses(before: seq<string>, after: seq<string>) {
    exists p: seq<string>, x: seq<string>, q: seq<string> :: Cuts(p, x, q, before, after)
  }

  ghost predicate Cuts(p: seq<string>, x: seq<string>, q: seq<string>, before: seq<string>, after: seq<string>) {
    before == p + x + q && after == p + q
  }

  lemma GainKeepsDistinct(before: seq<string>, after: seq<string>, name: string, taken: set<string>)
    requires Gains(before, after, name) && Distinct(before) && name !in before && name !in taken
    requires forall n :: n in before ==> n !in taken
    ensures Distinct(after) && forall n :: n in after ==> n !in taken
  {
    var p: seq<string>, q: seq<string> :| Around(p, q, before, after, name);
    forall i, j | 0 <= i < j < |after| ensures after[i] != after[j] {
      var u := if i <= |p| then i else i - 1;
      var v := if j < |p| then j else j - 1;
      if i == |p| {
        assert after[j] == before[v];
      } else if j == |p| {
        assert after[i] == before[u];
      } else {
        assert after[i] == before[u] && after[j] == before[v];
      }
    }
    forall n | n in after ensures n !in taken {
      if n != name { assert n in before; }
    }
  }

  lemma LossKeepsDistinct(before: seq<string>, after: seq<string>, taken: set<string>)
    requires Loses(before, after) && Distinct(before) && forall n :: n in before ==> n !in taken
    ensures Distinct(after) && forall n :: n in after ==> n !in taken
  {
    var p: seq<string>, x: seq<string>, q: seq<string> :| Cuts(p, x, q, before, after);
    forall i, j | 0 <= i < j < |after| ensures after[i] != after[j] {
      assert after[i] == before[if i < |p| then i else i + |x|];
      assert after[j] == before[if j < |p| then j else j + |x|];
    }
    forall n | n in after ensures n !in taken { assert n in before; }
  }

  lemma GainInside(front: seq<string>, before: seq<string>, after: seq<string>, back: seq<string>, name: string)
    requires Gains(before, after, name)
    ensures Gains(front + before + back, front + after + back, name)
  {
    var p: seq<string>, q: seq<string> :| Around(p, q, before, after, name);
    assert front + before + back == (front + p) + (q + back);
    assert front + after + back == (front + p) + [name] + (q + back);
    assert Around(front + p, q + back, front + before + back, front + after + back, name);
  }

  lemma LossInside(front: seq<string>, before: seq<string>, after: seq<string>, back: seq<string>)
    requires Loses(before, after)
    ensures Loses(front + before + back, front + after + back)
  {
    var p: seq<string>, x: seq<string>, q: seq<string> :| Cuts(p, x, q, before, after);
    assert front + before + back == (front + p) + x + (q + back);
    assert front + after + back == (front + p) + (q + back);
    assert Cuts(front + p, x, q + back, front + before + back, front + after + back);
  }

  lemma NameAdded(specifiers: seq<Specifier>, at: nat, s: Specifier)
    requires at <= |specifiers|
    ensures Gains(NamesOf(specifiers), NamesOf(specifiers[..at] + [s] + specifiers[at..]), LocalName(s))
  {
    assert specifiers == specifiers[..at] + specifiers[at..];
    NamesAppend(specifiers[..at], specifiers[at..]);
    NamesAppend(specifiers[..at] + [s], specifiers[at..]);
    NamesAppend(specifiers[..at], [s]);
    OneName(s);
    assert Around(NamesOf(specifiers[..at]), NamesOf(specifiers[at..]), NamesOf(specifiers),
                  NamesOf(specifiers[..at] + [s] + specifiers[at..]), LocalName(s));
  }

  lemma NameRemoved(specifiers: seq<Specifier>, k: nat)
    requires k < |specifiers|
    ensures Loses(NamesOf(specifiers), NamesOf(specifiers[..k] + specifiers[k + 1..]))
  {
    SplitAt(specifiers, k);
    NameCut(specifiers[..k], specifiers[k], specifiers[k + 1..]);
  }

  lemma SplitAt<T>(items: seq<T>, k: nat)
    requires k < |items|
    ensures items == items[..k] + [items[k]] + items[k + 1..]
  {}

  lemma NameCut(front: seq<Specifier>, s: Specifier, back: seq<Specifier>)
    ensures Loses(NamesOf(front + [s] + back), NamesOf(front + back))
  {
    NamesAppend(front, [s]);
    NamesAppend(front + [s], back);
    NamesAppend(front, back);
    assert Cuts(NamesOf(front), NamesOf([s]), NamesOf(back), NamesOf(front + [s] + back), NamesOf(front + back));
  }

  lemma ImportCut(front: seq<Import>, d: Import, back: seq<Import>)
    ensures Loses(AllNames(front + [d] + back), AllNames(front + back))
  {
    AllNamesAppend(front, [d]);
    AllNamesAppend(front + [d], back);
    AllNamesAppend(front, back);
    assert Cuts(AllNames(front), AllNames([d]), AllNames(back), AllNames(front + [d] + back), AllNames(front + back));
  }

  // A declaration that binds nothing.
  lemma NothingAdded(front: seq<Import>, d: Import, back: seq<Import>)
    requires BoundNames(d) == []
    ensures AllNames(front + [d] + back) == AllNames(front + back)
  {
    OneImport(d);
    AllNamesAppend(front, [d]);
    AllNamesAppend(front + [d], back);
    AllNamesAppend(front, back);
  }

  lemma FreshGains(f: File, d: Import, place: nat, name: string)
    requires BoundNames(d) == [name]
    ensures Gains(AllNames(f.imports), AllNames(Fresh(f, d, place).imports), name)
  {
    var at := if place < |f.imports| then place else |f.imports|;
    var front, back := f.imports[..at], f.imports[at..];
    assert f.imports == front + back;
    AllNamesAppend(front, back);
    OneImport(d);
    AllNamesAppend(front, [d]);
    AllNamesAppend(front + [d], back);
    assert Around(AllNames(front), AllNames(back), AllNames(f.imports), AllNames(front + [d] + back), name);
  }

  lemma ReplacedGains(f: File, i: nat, d: Import, name: string)
    requires i < |f.imports| && Gains(BoundNames(f.imports[i]), BoundNames(d), name)
    ensures Gains(AllNames(f.imports), AllNames(f.imports[i := d]), name)
  {
    ImportsAround(f.imports, i, d);
    GainInside(AllNames(f.imports[..i]), BoundNames(f.imports[i]), BoundNames(d), AllNames(f.imports[i + 1..]), name);
  }

  lemma ReplacedLoses(f: File, i: nat, d: Import)
    requires i < |f.imports| && Loses(BoundNames(f.imports[i]), BoundNames(d))
    ensures Loses(AllNames(f.imports), AllNames(f.imports[i := d]))
  {
    ImportsAround(f.imports, i, d);
    LossInside(AllNames(f.imports[..i]), BoundNames(f.imports[i]), BoundNames(d), AllNames(f.imports[i + 1..]));
  }

  // ---------------------------------------------------------------- each operation

  // The imports gain one unclaimed name, lose names, or keep theirs; the exports are not touched.
  ghost predicate ImportsStaySound(f: File, g: File) {
    && g.exports == f.exports && g.locals == f.locals
    && (AllNames(g.imports) == AllNames(f.imports)
        || Loses(AllNames(f.imports), AllNames(g.imports))
        || exists name :: Gains(AllNames(f.imports), AllNames(g.imports), name) && !Claimed(f, name))
  }

  ghost predicate ExportsStaySound(f: File, g: File) {
    && g.imports == f.imports && g.locals == f.locals
    && (AllExported(g.exports) == AllExported(f.exports)
        || Loses(AllExported(f.exports), AllExported(g.exports))
        || exists name :: Gains(AllExported(f.exports), AllExported(g.exports), name) && !Exported(f, name))
  }

  lemma SoundKeepsUnique(f: File, g: File)
    requires Unique(f) && (ImportsStaySound(f, g) || ExportsStaySound(f, g))
    ensures Unique(g)
  {
    if ImportsStaySound(f, g) {
      var before, after := AllNames(f.imports), AllNames(g.imports);
      if after != before {
        if Loses(before, after) {
          LossKeepsDistinct(before, after, f.locals.values);
        } else {
          var name :| Gains(before, after, name) && !Claimed(f, name);
          GainKeepsDistinct(before, after, name, f.locals.values);
        }
      }
    } else {
      var before, after := AllExported(f.exports), AllExported(g.exports);
      if after != before {
        if Loses(before, after) {
          LossKeepsDistinct(before, after, f.locals.exported);
        } else {
          var name :| Gains(before, after, name) && !Exported(f, name);
          GainKeepsDistinct(before, after, name, f.locals.exported);
        }
      }
    }
  }

  lemma OneBinding(name: string)
    ensures BindingNames(Named([Specifier(name, None, false)], false)) == [name]
  {
    OneName(Specifier(name, None, false));
  }

  lemma AddImportIsSound(lower: string -> string, f: File, name: string, from: string, sorted: bool, place: nat)
    ensures var g := AddImportTo(lower, f, name, from, sorted, place); g.Some? ==> ImportsStaySound(f, g.value)
  {
    var change := AddImportTo(lower, f, name, from, sorted, place);
    if change.Some? && change.value != f {
      var i := FirstOf(f.imports, TakesNamed(from));
      if i < |f.imports| {
        NamedGains(lower, f.imports[i], name, sorted);
        ReplacedGains(f, i, WithName(lower, f.imports[i], name, sorted), name);
      } else {
        var d := Import(from, Some(Clause(false, None, Named([Specifier(name, None, false)], false))));
        OneBinding(name);
        assert BoundNames(d) == [] + [name] == [name];
        FreshGains(f, d, place, name);
      }
    }
  }

  lemma NamedGains(lower: string -> string, d: Import, name: string, sorted: bool)
    requires d.clause.Some? && d.clause.value.bindings.Named?
    ensures Gains(BoundNames(d), BoundNames(WithName(lower, d, name, sorted)), name)
  {
    var b := d.clause.value.bindings;
    var at := if sorted then ImportOrder.SortedIndex(lower, b.specifiers, name) else |b.specifiers|;
    var s := Specifier(name, None, false);
    NameAdded(b.specifiers, at, s);
    var head := if d.clause.value.default.Some? then [d.clause.value.default.value] else [];
    var before, after := NamesOf(b.specifiers), NamesOf(b.specifiers[..at] + [s] + b.specifiers[at..]);
    GainInside(head, before, after, [], name);
    assert head + before + [] == head + before && head + after + [] == head + after;
  }

  lemma AddDefaultIsSound(f: File, name: string, from: string, place: nat)
    ensures var g := AddDefaultTo(f, name, from, place); g.Some? ==> ImportsStaySound(f, g.value)
  {
    var change := AddDefaultTo(f, name, from, place);
    if change.Some? && change.value != f {
      var i := FirstOf(f.imports, TakesDefault(from));
      if i < |f.imports| {
        var d := f.imports[i];
        assert !HasDefault(from)(d);
        var named := d.(clause := Some(d.clause.value.(default := Some(name))));
        assert BoundNames(d) == [] + BindingNames(d.clause.value.bindings) == BindingNames(d.clause.value.bindings);
        assert Around([], BoundNames(d), BoundNames(d), BoundNames(named), name);
        ReplacedGains(f, i, named, name);
      } else {
        var d := Import(from, Some(Clause(false, Some(name), NoBindings)));
        assert BoundNames(d) == [name] + [] == [name];
        FreshGains(f, d, place, name);
      }
    }
  }

  lemma AddNamespaceIsSound(f: File, name: string, from: string, place: nat)
    ensures var g := AddNamespaceTo(f, name, from, place); g.Some? ==> ImportsStaySound(f, g.value)
  {
    var change := AddNamespaceTo(f, name, from, place);
    if change.Some? && change.value != f {
      var i := FirstOf(f.imports, TakesNamespace(from));
      if i < |f.imports| {
        var d := f.imports[i];
        var named := d.(clause := Some(d.clause.value.(bindings := Namespace(name))));
        assert BoundNames(d) == BoundNames(d) + [] && BoundNames(named) == BoundNames(d) + [name] + [];
        assert Around(BoundNames(d), [], BoundNames(d), BoundNames(named), name);
        ReplacedGains(f, i, named, name);
      } else {
        var d := Import(from, Some(Clause(false, None, Namespace(name))));
        assert BoundNames(d) == [] + [name] == [name];
        FreshGains(f, d, place, name);
      }
    }
  }

  lemma AddTypeIsSound(f: File, name: string, from: string, place: nat)
    ensures var g := AddTypeTo(f, name, from, place); g.Some? ==> ImportsStaySound(f, g.value)
  {
    var change := AddTypeTo(f, name, from, place);
    if change.Some? && change.value != f {
      var d := Import(from, Some(Clause(true, None, Named([Specifier(name, None, false)], false))));
      OneBinding(name);
      assert BoundNames(d) == [] + [name] == [name];
      FreshGains(f, d, place, name);
    }
  }

  lemma AddSideEffectIsSound(f: File, from: string, place: nat)
    ensures var g := AddSideEffectTo(f, from, place); g.Some? ==> ImportsStaySound(f, g.value)
  {
    var at := if place < |f.imports| then place else |f.imports|;
    assert f.imports == f.imports[..at] + f.imports[at..];
    NothingAdded(f.imports[..at], Import(from, None), f.imports[at..]);
  }

  lemma RemoveImportIsSound(f: File, name: string, from: string)
    ensures var g := RemoveImportFrom(f, name, from); g.Some? ==> ImportsStaySound(f, g.value)
  {
    var i := FirstOf(f.imports, ImportsName(from, name));
    if i < |f.imports| {
      var d := f.imports[i];
      var k := FirstOf(Specifiers(d), NamedAs(name));
      if |Specifiers(d)| == 1 && d.clause.value.default.None? {
        assert f.imports == f.imports[..i] + [d] + f.imports[i + 1..];
        ImportCut(f.imports[..i], d, f.imports[i + 1..]);
      } else if k < |Specifiers(d)| {
        var smaller := d.(clause := Some(d.clause.value.(bindings :=
          d.clause.value.bindings.(specifiers := Specifiers(d)[..k] + Specifiers(d)[k + 1..]))));
        SpecifierRemoved(d, k, smaller);
        ReplacedLoses(f, i, smaller);
      }
    }
  }

  lemma SpecifierRemoved(d: Import, k: nat, smaller: Import)
    requires k < |Specifiers(d)|
    requires smaller == d.(clause := Some(d.clause.value.(bindings :=
               d.clause.value.bindings.(specifiers := Specifiers(d)[..k] + Specifiers(d)[k + 1..]))))
    ensures Loses(BoundNames(d), BoundNames(smaller))
  {
    var head := if d.clause.value.default.Some? then [d.clause.value.default.value] else [];
    var before, after := NamesOf(Specifiers(d)), NamesOf(Specifiers(smaller));
    NameRemoved(Specifiers(d), k);
    LossInside(head, before, after, []);
    assert head + before + [] == BoundNames(d) && head + after + [] == BoundNames(smaller);
  }

  lemma AddReExportIsSound(f: File, name: string, from: string)
    ensures var g := AddReExportTo(f, name, from); g.Some? ==> ExportsStaySound(f, g.value)
  {
    var change := AddReExportTo(f, name, from);
    if change.Some? && change.value != f {
      var s := Specifier(name, None, false);
      var i := FirstOf(f.exports, TakesExport(from));
      if i < |f.exports| {
        var e := f.exports[i];
        var specifiers := e.clause.specifiers;
        NameAdded(specifiers, |specifiers|, s);
        assert specifiers[..|specifiers|] + [s] + specifiers[|specifiers|..] == specifiers + [s];
        ExportsAround(f.exports, i, e.(clause := Names(specifiers + [s])));
        GainInside(AllExported(f.exports[..i]), NamesOf(specifiers), NamesOf(specifiers + [s]),
            AllExported(f.exports[i + 1..]), name);
      } else {
        var e := Export(Some(from), false, Names([s]));
        OneName(s);
        AppendedExport(f, e, name);
      }
    }
  }

  lemma AppendedExport(f: File, e: Export, name: string)
    requires ExportedBy(e) == [name]
    ensures Gains(AllExported(f.exports), AllExported(f.exports + [e]), name)
  {
    OneExport(e);
    AllExportedAppend(f.exports, [e]);
    assert Around(AllExported(f.exports), [], AllExported(f.exports), AllExported(f.exports + [e]), name);
  }

  lemma AddExportAllIsSound(f: File, from: string, alias: Option<string>)
    ensures var g := AddExportAllTo(f, from, alias); g.Some? ==> ExportsStaySound(f, g.value)
  {
    var e := Export(Some(from), false, ExportAllClause(alias));
    if alias.Some? {
      AppendedExport(f, e, alias.value);
    } else {
      OneExport(e);
      AllExportedAppend(f.exports, [e]);
    }
  }

  lemma RemoveExportIsSound(f: File, name: string, from: string)
    ensures var g := RemoveExportFrom(f, name, from); g.Some? ==> ExportsStaySound(f, g.value)
  {
    var i := FirstOf(f.exports, ExportsName(from, name));
    if i < |f.exports| {
      var e := f.exports[i];
      var specifiers := e.clause.specifiers;
      var k := FirstOf(specifiers, NamedAs(name));
      if |specifiers| == 1 {
        ExportsAround(f.exports, i, e);
        assert Cuts(AllExported(f.exports[..i]), ExportedBy(e), AllExported(f.exports[i + 1..]), AllExported(f.exports),
                    AllExported(f.exports[..i] + f.exports[i + 1..]));
      } else if k < |specifiers| {
        var smaller := specifiers[..k] + specifiers[k + 1..];
        NameRemoved(specifiers, k);
        ExportsAround(f.exports, i, e.(clause := Names(smaller)));
        LossInside(AllExported(f.exports[..i]), NamesOf(specifiers), NamesOf(smaller), AllExported(f.exports[i + 1..]));
      }
    }
  }

  ghost predicate StaysSound(f: File, g: File) {
    ImportsStaySound(f, g) || ExportsStaySound(f, g)
  }

  lemma ImportCallIsSound(lower: string -> string, f: File, c: Call, place: nat)
    requires Execute(lower, f, c, place).Some? && !c.AddReExport? && !c.AddExportAll? && !c.RemoveExport?
    ensures StaysSound(f, Execute(lower, f, c, place).value)
  {
    match c
    case AddImport(name, from, sorted) => AddImportIsSound(lower, f, name, from, sorted, place);
    case AddDefault(name, from) => AddDefaultIsSound(f, name, from, place);
    case AddNamespace(name, from) => AddNamespaceIsSound(f, name, from, place);
    case AddType(name, from) => AddTypeIsSound(f, name, from, place);
    case AddSideEffect(from) => AddSideEffectIsSound(f, from, place);
    case RemoveImport(name, from) => RemoveImportIsSound(f, name, from);
  }

  lemma ExportCallIsSound(lower: string -> string, f: File, c: Call, place: nat)
    requires Execute(lower, f, c, place).Some? && (c.AddReExport? || c.AddExportAll? || c.RemoveExport?)
    ensures StaysSound(f, Execute(lower, f, c, place).value)
  {
    match c
    case AddReExport(name, from) => AddReExportIsSound(f, name, from);
    case AddExportAll(from, alias) => AddExportAllIsSound(f, from, alias);
    case RemoveExport(name, from) => RemoveExportIsSound(f, name, from);
  }

  // Every accepted call keeps every name unique.
  lemma CallKeepsUnique(lower: string -> string, valid: string -> bool, f: File, c: Call, place: nat)
    requires Unique(f) && Perform(lower, valid, f, c, place).Some?
    ensures Unique(Perform(lower, valid, f, c, place).value)
  {
    if c.AddReExport? || c.AddExportAll? || c.RemoveExport? {
      ExportCallIsSound(lower, f, c, place);
    } else {
      ImportCallIsSound(lower, f, c, place);
    }
    SoundKeepsUnique(f, Execute(lower, f, c, place).value);
  }

  // Over any sequence of calls, accepted or rejected.
  lemma {:induction false} RunKeepsUnique(lower: string -> string, valid: string -> bool, f: File, calls: seq<Placed>)
    requires Unique(f)
    ensures Unique(Run(lower, valid, f, calls))
    decreases |calls|
  {
    if calls != [] {
      var next := Perform(lower, valid, f, calls[0].call, calls[0].place);
      if next.Some? { CallKeepsUnique(lower, valid, f, calls[0].call, calls[0].place); }
      RunKeepsUnique(lower, valid, if next.Some? then next.value else f, calls[1..]);
    }
  }

  // ---------------------------------------------------------------- repeating a call

  predicate Adds(c: Call) {
    !c.RemoveImport? && !c.RemoveExport?
  }

  lemma FreshIsIn(f: File, d: Import, place: nat)
    ensures d in Fresh(f, d, place).imports
  {
    var at := if place < |f.imports| then place else |f.imports|;
    assert Fresh(f, d, place).imports[at] == d;
  }

  lemma FirstOfIs<T>(items: seq<T>, wanted: T -> bool, i: nat)
    requires i < |items| && wanted(items[i]) && forall k :: 0 <= k < i ==> !wanted(items[k])
    ensures FirstOf(items, wanted) == i
  {}

  lemma AddImportAgain(
      lower: string -> string, f: File, name: string, from: string, sorted: bool, place: nat, again: nat)
    ensures var g := AddImportTo(lower, f, name, from, sorted, place);
            g.Some? ==> AddImportTo(lower, g.value, name, from, sorted, again) == Some(g.value)
  {
    var g := AddImportTo(lower, f, name, from, sorted, place);
    if g.Some? && g.value != f {
      var s := Specifier(name, None, false);
      var i := FirstOf(f.imports, TakesNamed(from));
      if i < |f.imports| {
        var d := WithName(lower, f.imports[i], name, sorted);
        var b := f.imports[i].clause.value.bindings;
        var at := if sorted then ImportOrder.SortedIndex(lower, b.specifiers, name) else |b.specifiers|;
        assert Specifiers(d)[at] == s && OwnName(s, name);
        assert g.value.imports[i] == d && Satisfies(d, name);
      } else {
        var d := Import(from, Some(Clause(false, None, Named([s], false))));
        FreshIsIn(f, d, place);
        assert Specifiers(d)[0] == s && OwnName(s, name) && Satisfies(d, name);
      }
    }
  }

  lemma AddDefaultAgain(f: File, name: string, from: string, place: nat, again: nat)
    ensures var g := AddDefaultTo(f, name, from, place); g.Some? ==>
              AddDefaultTo(g.value, name, from, again) == Some(g.value)
  {
    var g := AddDefaultTo(f, name, from, place);
    if g.Some? && g.value != f {
      var i := FirstOf(f.imports, TakesDefault(from));
      if i < |f.imports| {
        FirstOfIs(g.value.imports, HasDefault(from), i);
      } else {
        var at := if place < |f.imports| then place else |f.imports|;
        FirstOfIs(g.value.imports, HasDefault(from), at);
      }
    }
  }

  lemma AddNamespaceAgain(f: File, name: string, from: string, place: nat, again: nat)
    ensures var g := AddNamespaceTo(f, name, from, place); g.Some? ==>
              AddNamespaceTo(g.value, name, from, again) == Some(g.value)
  {
    var g := AddNamespaceTo(f, name, from, place);
    if g.Some? && g.value != f {
      var i := FirstOf(f.imports, TakesNamespace(from));
      if i < |f.imports| {
        FirstOfIs(g.value.imports, HasNamespace(from), i);
      } else {
        var at := if place < |f.imports| then place else |f.imports|;
        FirstOfIs(g.value.imports, HasNamespace(from), at);
      }
    }
  }

  lemma AddTypeAgain(f: File, name: string, from: string, place: nat, again: nat)
    ensures var g := AddTypeTo(f, name, from, place); g.Some? ==> AddTypeTo(g.value, name, from, again) == Some(g.value)
  {
    var g := AddTypeTo(f, name, from, place);
    if g.Some? && g.value != f {
      var s := Specifier(name, None, false);
      var d := Import(from, Some(Clause(true, None, Named([s], false))));
      FreshIsIn(f, d, place);
      assert Specifiers(d)[0] == s && OwnName(s, name) && ProvidesType(d, name);
    }
  }

  lemma AddReExportAgain(f: File, name: string, from: string)
    ensures var g := AddReExportTo(f, name, from); g.Some? ==> AddReExportTo(g.value, name, from) == Some(g.value)
  {
    var g := AddReExportTo(f, name, from);
    if g.Some? && g.value != f {
      var s := Specifier(name, None, false);
      var i := FirstOf(f.exports, TakesExport(from));
      var at := if i < |f.exports| then i else |f.exports|;
      var e := g.value.exports[at];
      assert e.clause.specifiers[|e.clause.specifiers| - 1] == s;
      assert ReExports(e, from, name) && e in g.value.exports;
    }
  }

  // Repeating an accepted call changes nothing, wherever a fresh declaration would have gone.
  lemma RepeatedCallIsNoOp(lower: string -> string, valid: string -> bool, f: File, c: Call, place: nat, again: nat)
    requires Adds(c)
    ensures var g := Perform(lower, valid, f, c, place); g.Some? ==>
              Perform(lower, valid, g.value, c, again) == Some(g.value)
  {
    match c
    case AddImport(name, from, sorted) => AddImportAgain(lower, f, name, from, sorted, place, again);
    case AddDefault(name, from) => AddDefaultAgain(f, name, from, place, again);
    case AddNamespace(name, from) => AddNamespaceAgain(f, name, from, place, again);
    case AddType(name, from) => AddTypeAgain(f, name, from, place, again);
    case AddSideEffect(from) => FreshIsIn(f, Import(from, None), place);
    case AddReExport(name, from) => AddReExportAgain(f, name, from);
    case AddExportAll(_, _) =>
  }
}

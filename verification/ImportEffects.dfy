// What an accepted call makes of a file's imports and exports: exactly one binding more, one less, or
// the same ones.
module ImportEffects {
  import opened Prelude
  import opened Imports
  import opened ImportOps
  import ImportOrder

  // What a declaration binds or exports: the default, everything under one name, a listed name,
  // everything, or nothing at all.
  datatype What = Default(local: string) | Star(local: string) | Listed(specifier: Specifier) | Everything | Effect

  // An export of the file's own names has no module.
  datatype Binding = Binding(from: Option<string>, what: What, typeOnly: bool)

  function ListedBindings(from: Option<string>, specifiers: seq<Specifier>, typeOnly: bool): multiset<Binding> {
    if specifiers == [] then multiset{}
    else multiset{Binding(from, Listed(specifiers[0]), typeOnly)} + ListedBindings(from, specifiers[1..], typeOnly)
  }

  function NamedBindings(from: Option<string>, b: Bindings, typeOnly: bool): multiset<Binding> {
    match b
    case NoBindings => multiset{}
    case Namespace(name) => multiset{Binding(from, Star(name), typeOnly)}
    case Named(specifiers, _) => ListedBindings(from, specifiers, typeOnly)
  }

  function BindingsOf(d: Import): multiset<Binding> {
    match d.clause
    case None => multiset{Binding(Some(d.from), Effect, false)}
    case Some(c) =>
      (if c.default.Some? then multiset{Binding(Some(d.from), Default(c.default.value), c.typeOnly)} else multiset{})
      + NamedBindings(Some(d.from), c.bindings, c.typeOnly)
  }

  function ExportsOf(e: Export): multiset<Binding> {
    match e.clause
    case All => multiset{Binding(e.from, Everything, e.typeOnly)}
    case AllAs(name) => multiset{Binding(e.from, Star(name), e.typeOnly)}
    case Names(specifiers) => ListedBindings(e.from, specifiers, e.typeOnly)
  }

  function Sum<T>(items: seq<T>, part: T -> multiset<Binding>): multiset<Binding> {
    if items == [] then multiset{} else part(items[0]) + Sum(items[1..], part)
  }

  function AllBindings(imports: seq<Import>): multiset<Binding> {
    Sum(imports, BindingsOf)
  }

  function AllExports(exports: seq<Export>): multiset<Binding> {
    Sum(exports, ExportsOf)
  }

  lemma {:induction false} ListedAppend(from: Option<string>, a: seq<Specifier>, b: seq<Specifier>, typeOnly: bool)
    ensures ListedBindings(from, a + b, typeOnly)
         == ListedBindings(from, a, typeOnly) + ListedBindings(from, b, typeOnly)
  {
    if a == [] {
      assert a + b == b;
    } else {
      assert (a + b)[1..] == a[1..] + b;
      ListedAppend(from, a[1..], b, typeOnly);
    }
  }

  lemma ListedOne(from: Option<string>, s: Specifier, typeOnly: bool)
    ensures ListedBindings(from, [s], typeOnly) == multiset{Binding(from, Listed(s), typeOnly)}
  {
    assert [s][1..] == [];
  }

  // One name more in a list.
  lemma ListedWith(from: Option<string>, specifiers: seq<Specifier>, at: nat, s: Specifier, typeOnly: bool)
    requires at <= |specifiers|
    ensures ListedBindings(from, specifiers[..at] + [s] + specifiers[at..], typeOnly)
         == ListedBindings(from, specifiers, typeOnly) + multiset{Binding(from, Listed(s), typeOnly)}
  {
    assert specifiers == specifiers[..at] + specifiers[at..];
    ListedAppend(from, specifiers[..at], specifiers[at..], typeOnly);
    ListedAppend(from, specifiers[..at] + [s], specifiers[at..], typeOnly);
    ListedAppend(from, specifiers[..at], [s], typeOnly);
    ListedOne(from, s, typeOnly);
  }

  lemma ListedWithout(from: Option<string>, specifiers: seq<Specifier>, k: nat, typeOnly: bool)
    requires k < |specifiers|
    ensures ListedBindings(from, specifiers, typeOnly)
         == ListedBindings(from, specifiers[..k] + specifiers[k + 1..], typeOnly)
            + multiset{Binding(from, Listed(specifiers[k]), typeOnly)}
  {
    var rest := specifiers[..k] + specifiers[k + 1..];
    assert rest[..k] == specifiers[..k] && rest[k..] == specifiers[k + 1..];
    assert specifiers == rest[..k] + [specifiers[k]] + rest[k..];
    ListedWith(from, rest, k, specifiers[k], typeOnly);
  }

  lemma {:induction false} SumAppend<T>(a: seq<T>, b: seq<T>, part: T -> multiset<Binding>)
    ensures Sum(a + b, part) == Sum(a, part) + Sum(b, part)
  {
    if a == [] {
      assert a + b == b;
    } else {
      assert (a + b)[1..] == a[1..] + b;
      SumAppend(a[1..], b, part);
    }
  }

  lemma SumAround<T>(front: seq<T>, x: T, back: seq<T>, part: T -> multiset<Binding>)
    ensures Sum(front + [x] + back, part) == Sum(front + back, part) + part(x)
  {
    SumAppend(front + [x], back, part);
    SumAppend(front, [x], part);
    SumAppend(front, back, part);
    assert [x][1..] == [];
  }

  // Changing one declaration changes the bindings by what it gains and loses.
  lemma SumReplaced<T>(items: seq<T>, i: nat, x: T, part: T -> multiset<Binding>)
    requires i < |items|
    ensures Sum(items[i := x], part) + part(items[i]) == Sum(items, part) + part(x)
    ensures Sum(items[..i] + items[i + 1..], part) + part(items[i]) == Sum(items, part)
  {
    assert items == items[..i] + [items[i]] + items[i + 1..];
    assert items[i := x] == items[..i] + [x] + items[i + 1..];
    SumAround(items[..i], items[i], items[i + 1..], part);
    SumAround(items[..i], x, items[i + 1..], part);
  }

  // ---------------------------------------------------------------- adding an import

  // The binding a call asks for.
  function Asked(c: Call): Option<Binding> {
    match c
    case AddImport(name, from, _) => Some(Binding(Some(from), Listed(Specifier(name, None, false)), false))
    case AddDefault(name, from) => Some(Binding(Some(from), Default(name), false))
    case AddNamespace(name, from) => Some(Binding(Some(from), Star(name), false))
    case AddType(name, from) => Some(Binding(Some(from), Listed(Specifier(name, None, false)), true))
    case AddSideEffect(from) => Some(Binding(Some(from), Effect, false))
    case _ => None
  }

  function NameOf(name: string, from: string, typeOnly: bool): Binding {
    Binding(Some(from), Listed(Specifier(name, None, false)), typeOnly)
  }

  // Exports and local declarations stay, and the imports gain just this binding.
  ghost predicate GainsOnly(f: File, g: File, b: Binding) {
    g.exports == f.exports && g.locals == f.locals && AllBindings(g.imports) == AllBindings(f.imports) + multiset{b}
  }

  lemma FreshGainsOnly(f: File, d: Import, place: nat, b: Binding)
    requires BindingsOf(d) == multiset{b}
    ensures GainsOnly(f, Fresh(f, d, place), b)
  {
    var at := if place < |f.imports| then place else |f.imports|;
    assert f.imports[..at] + f.imports[at..] == f.imports;
    SumAround(f.imports[..at], d, f.imports[at..], BindingsOf);
  }

  lemma ReplacedGainsOnly(f: File, i: nat, d: Import, b: Binding)
    requires i < |f.imports| && BindingsOf(d) == BindingsOf(f.imports[i]) + multiset{b}
    ensures GainsOnly(f, f.(imports := f.imports[i := d]), b)
  {
    SumReplaced(f.imports, i, d, BindingsOf);
    Cancel(AllBindings(f.imports[i := d]), BindingsOf(f.imports[i]), AllBindings(f.imports), multiset{b});
  }

  lemma Cancel(after: multiset<Binding>, part: multiset<Binding>, before: multiset<Binding>, more: multiset<Binding>)
    requires after + part == before + (part + more)
    ensures after == before + more
  {
    forall b ensures after[b] == (before + more)[b] { assert (after + part)[b] == (before + (part + more))[b]; }
  }

  // A declaration whose braces take one name more.
  lemma WithSpecifierGains(d: Import, at: nat, s: Specifier)
    requires d.clause.Some? && d.clause.value.bindings.Named? && at <= |Specifiers(d)|
    ensures var b := d.clause.value.bindings.(specifiers := Specifiers(d)[..at] + [s] + Specifiers(d)[at..]);
            BindingsOf(d.(clause := Some(d.clause.value.(bindings := b))))
            == BindingsOf(d) + multiset{Binding(Some(d.from), Listed(s), d.clause.value.typeOnly)}
  {
    ListedWith(Some(d.from), Specifiers(d), at, s, d.clause.value.typeOnly);
  }

  lemma WithNameGains(lower: string -> string, d: Import, name: string, sorted: bool)
    requires d.clause.Some? && d.clause.value.bindings.Named? && !d.clause.value.typeOnly
    ensures BindingsOf(WithName(lower, d, name, sorted))
         == BindingsOf(d) + multiset{Binding(Some(d.from), Listed(Specifier(name, None, false)), false)}
  {
    var at := if sorted then ImportOrder.SortedIndex(lower, Specifiers(d), name) else |Specifiers(d)|;
    WithSpecifierGains(d, at, Specifier(name, None, false));
  }

  lemma AddImportGains(lower: string -> string, f: File, name: string, from: string, sorted: bool, place: nat)
    ensures var g := AddImportTo(lower, f, name, from, sorted, place);
            g.Some? ==> g == Some(f) || GainsOnly(f, g.value, NameOf(name, from, false))
  {
    var s, b := Specifier(name, None, false), Binding(Some(from), Listed(Specifier(name, None, false)), false);
    var i := FirstOf(f.imports, TakesNamed(from));
    if i < |f.imports| {
      WithNameGains(lower, f.imports[i], name, sorted);
      ReplacedGainsOnly(f, i, WithName(lower, f.imports[i], name, sorted), b);
    } else {
      ListedOne(Some(from), s, false);
      FreshGainsOnly(f, Import(from, Some(Clause(false, None, Named([s], false)))), place, b);
    }
  }

  lemma AddDefaultGains(f: File, name: string, from: string, place: nat)
    ensures var g := AddDefaultTo(f, name, from, place);
            g.Some? ==> g == Some(f) || GainsOnly(f, g.value, Binding(Some(from), Default(name), false))
  {
    var b, i := Binding(Some(from), Default(name), false), FirstOf(f.imports, TakesDefault(from));
    if FirstOf(f.imports, HasDefault(from)) == |f.imports| {
      if i < |f.imports| {
        var d := f.imports[i];
        assert !HasDefault(from)(d);
        ReplacedGainsOnly(f, i, d.(clause := Some(d.clause.value.(default := Some(name)))), b);
      } else {
        FreshGainsOnly(f, Import(from, Some(Clause(false, Some(name), NoBindings))), place, b);
      }
    }
  }

  lemma AddNamespaceGains(f: File, name: string, from: string, place: nat)
    ensures var g := AddNamespaceTo(f, name, from, place);
            g.Some? ==> g == Some(f) || GainsOnly(f, g.value, Binding(Some(from), Star(name), false))
  {
    var b, i := Binding(Some(from), Star(name), false), FirstOf(f.imports, TakesNamespace(from));
    if i < |f.imports| {
      var d := f.imports[i];
      ReplacedGainsOnly(f, i, d.(clause := Some(d.clause.value.(bindings := Namespace(name)))), b);
    } else {
      FreshGainsOnly(f, Import(from, Some(Clause(false, None, Namespace(name)))), place, b);
    }
  }

  lemma AddTypeGains(f: File, name: string, from: string, place: nat)
    ensures var g := AddTypeTo(f, name, from, place);
            g.Some? ==> g == Some(f) || GainsOnly(f, g.value, NameOf(name, from, true))
  {
    var s := Specifier(name, None, false);
    ListedOne(Some(from), s, true);
    FreshGainsOnly(f, Import(from, Some(Clause(true, None, Named([s], false)))), place, NameOf(name, from, true));
  }

  // A binding that serves for the one asked for: for a value import any value binding of the
  // name from that module, for a type import a type-only one too.
  ghost predicate Serves(f: File, c: Call) {
    match c
    case AddImport(name, from, _) => exists d :: d in f.imports && d.from == from && Satisfies(d, name)
    case AddDefault(name, from) =>
      exists d :: d in f.imports && HasDefault(from)(d) && d.clause.value.default == Some(name)
    case AddNamespace(name, from) =>
      exists d :: d in f.imports && HasNamespace(from)(d) && d.clause.value.bindings == Namespace(name)
    case AddType(name, from) => exists d :: d in f.imports && d.from == from && ProvidesType(d, name)
    case AddSideEffect(from) => Import(from, None) in f.imports
    case _ => true
  }

  // An accepted adding call either finds what it asks for and changes nothing, or adds exactly
  // the binding it asks for; every other binding stays with its module, its name and its kind.
  lemma AddingMeans(lower: string -> string, valid: string -> bool, f: File, c: Call, place: nat)
    requires Asked(c).Some? && Perform(lower, valid, f, c, place).Some?
    ensures var g := Perform(lower, valid, f, c, place).value;
            (g == f && Serves(f, c)) || GainsOnly(f, g, Asked(c).value)
  {
    match c
    case AddImport(name, from, sorted) => AddImportGains(lower, f, name, from, sorted, place);
    case AddDefault(name, from) => AddDefaultGains(f, name, from, place);
    case AddNamespace(name, from) => AddNamespaceGains(f, name, from, place);
    case AddType(name, from) => AddTypeGains(f, name, from, place);
    case AddSideEffect(from) => FreshGainsOnly(f, Import(from, None), place, Binding(Some(from), Effect, false));
  }

  // ---------------------------------------------------------------- removing an import

  // What a removal looks for: the listed name, by the name it imports.
  ghost predicate Lists(f: File, from: string, name: string) {
    exists d :: d in f.imports && ImportsName(from, name)(d)
  }

  // The binding of the `k`th name in the braces.
  function ListedOf(d: Import, k: nat): Binding
    requires k < |Specifiers(d)|
  {
    Binding(Some(d.from), Listed(Specifiers(d)[k]), d.clause.value.typeOnly)
  }

  // A declaration whose braces lose one name.
  lemma WithoutNameLoses(d: Import, k: nat)
    requires k < |Specifiers(d)|
    ensures var b := d.clause.value.bindings.(specifiers := Specifiers(d)[..k] + Specifiers(d)[k + 1..]);
            BindingsOf(d) == BindingsOf(d.(clause := Some(d.clause.value.(bindings := b))))
                             + multiset{ListedOf(d, k)}
  {
    ListedWithout(Some(d.from), Specifiers(d), k, d.clause.value.typeOnly);
  }

  lemma OnlyNameLoses(d: Import)
    requires |Specifiers(d)| == 1 && d.clause.value.default.None?
    ensures BindingsOf(d) == multiset{Binding(Some(d.from), Listed(Specifiers(d)[0]), d.clause.value.typeOnly)}
  {
    assert Specifiers(d) == [Specifiers(d)[0]];
    ListedOne(Some(d.from), Specifiers(d)[0], d.clause.value.typeOnly);
  }

  ghost predicate LosesOnly(f: File, g: File, b: Binding) {
    g.exports == f.exports && g.locals == f.locals && AllBindings(f.imports) == AllBindings(g.imports) + multiset{b}
  }

  lemma RemovedLoses(f: File, i: nat, k: nat)
    requires i < |f.imports| && k < |Specifiers(f.imports[i])|
    requires |Specifiers(f.imports[i])| == 1 && f.imports[i].clause.value.default.None?
    ensures LosesOnly(f, f.(imports := f.imports[..i] + f.imports[i + 1..]),
                      ListedOf(f.imports[i], k))
  {
    OnlyNameLoses(f.imports[i]);
    SumReplaced(f.imports, i, f.imports[i], BindingsOf);
  }

  lemma ShrunkLoses(f: File, i: nat, k: nat, d: Import)
    requires i < |f.imports| && k < |Specifiers(f.imports[i])|
    requires BindingsOf(f.imports[i]) == BindingsOf(d)
             + multiset{ListedOf(f.imports[i], k)}
    ensures LosesOnly(f, f.(imports := f.imports[i := d]),
                      ListedOf(f.imports[i], k))
  {
    var b := ListedOf(f.imports[i], k);
    SumReplaced(f.imports, i, d, BindingsOf);
    Cancel(AllBindings(f.imports), BindingsOf(d), AllBindings(f.imports[i := d]), multiset{b});
  }

  // A listed name is found.
  lemma FirstOfNamed(specifiers: seq<Specifier>, name: string)
    requires exists s :: s in specifiers && s.name == name
    ensures FirstOf(specifiers, NamedAs(name)) < |specifiers|
  {
    var s :| s in specifiers && s.name == name;
    var j :| 0 <= j < |specifiers| && specifiers[j] == s;
    assert NamedAs(name)(specifiers[j]);
  }

  // A removal takes one listed binding of that name and module, when there is one.
  lemma RemovingMeans(lower: string -> string, valid: string -> bool, f: File, name: string, from: string, place: nat)
    requires Perform(lower, valid, f, RemoveImport(name, from), place).Some?
    ensures var g := Perform(lower, valid, f, RemoveImport(name, from), place).value;
            && (Lists(f, from, name) ==> exists b: Binding ::
                  b.from == Some(from) && b.what.Listed? && b.what.specifier.name == name && LosesOnly(f, g, b))
            && (!Lists(f, from, name) ==> g == f)
  {
    var i := FirstOf(f.imports, ImportsName(from, name));
    if i < |f.imports| {
      var d := f.imports[i];
      var specifiers := Specifiers(d);
      var k := FirstOf(specifiers, NamedAs(name));
      FirstOfNamed(specifiers, name);
      if |specifiers| == 1 && d.clause.value.default.None? {
        RemovedLoses(f, i, k);
      } else {
        WithoutNameLoses(d, k);
        var b := d.clause.value.bindings.(specifiers := specifiers[..k] + specifiers[k + 1..]);
        ShrunkLoses(f, i, k, d.(clause := Some(d.clause.value.(bindings := b))));
      }
    }
  }

  // ---------------------------------------------------------------- exports

  // Imports and local declarations stay, and the exports gain, or lose, just this one.
  ghost predicate ExportsOnly(f: File, g: File, b: Binding) {
    g.imports == f.imports && g.locals == f.locals && AllExports(g.exports) == AllExports(f.exports) + multiset{b}
  }

  lemma ExportAdded(f: File, e: Export, b: Binding)
    requires ExportsOf(e) == multiset{b}
    ensures ExportsOnly(f, f.(exports := f.exports + [e]), b)
  {
    SumAround(f.exports, e, [], ExportsOf);
    assert f.exports + [e] + [] == f.exports + [e] && f.exports + [] == f.exports;
  }

  lemma ExportGrown(f: File, i: nat, s: Specifier)
    requires i < |f.exports| && f.exports[i].clause.Names?
    ensures var e := f.exports[i];
            ExportsOnly(f, f.(exports := f.exports[i := e.(clause := Names(e.clause.specifiers + [s]))]),
                        Binding(e.from, Listed(s), e.typeOnly))
  {
    var e := f.exports[i];
    var grown := e.(clause := Names(e.clause.specifiers + [s]));
    ListedAppend(e.from, e.clause.specifiers, [s], e.typeOnly);
    ListedOne(e.from, s, e.typeOnly);
    SumReplaced(f.exports, i, grown, ExportsOf);
    Cancel(AllExports(f.exports[i := grown]), ExportsOf(e), AllExports(f.exports),
           multiset{Binding(e.from, Listed(s), e.typeOnly)});
  }

  // An accepted re-export is there already, or is added, and nothing else changes.
  lemma ReExportingMeans(lower: string -> string, valid: string -> bool, f: File, c: Call, place: nat)
    requires (c.AddReExport? || c.AddExportAll?) && Perform(lower, valid, f, c, place).Some?
    ensures var g := Perform(lower, valid, f, c, place).value;
            match c
            case AddReExport(name, from) =>
              (g == f && exists e :: e in f.exports && ReExports(e, from, name))
              || ExportsOnly(f, g, Binding(Some(from), Listed(Specifier(name, None, false)), false))
            case AddExportAll(from, alias) =>
              (g == f && Export(Some(from), false, ExportAllClause(alias)) in f.exports)
              || ExportsOnly(f, g, Binding(Some(from), if alias.Some? then Star(alias.value) else Everything, false))
            case _ => true
  {
    match c
    case AddReExport(name, from) =>
      var s := Specifier(name, None, false);
      var i := FirstOf(f.exports, TakesExport(from));
      if i < |f.exports| {
        ExportGrown(f, i, s);
      } else {
        ListedOne(Some(from), s, false);
        ExportAdded(f, Export(Some(from), false, Names([s])), Binding(Some(from), Listed(s), false));
      }
    case AddExportAll(from, alias) =>
      ExportAdded(f, Export(Some(from), false, ExportAllClause(alias)),
                  Binding(Some(from), if alias.Some? then Star(alias.value) else Everything, false));
  }

  lemma ExportShrunk(f: File, i: nat, k: nat)
    requires i < |f.exports| && f.exports[i].clause.Names? && k < |f.exports[i].clause.specifiers|
    ensures var e := f.exports[i];
            var rest := e.clause.specifiers[..k] + e.clause.specifiers[k + 1..];
            var b := Binding(e.from, Listed(e.clause.specifiers[k]), e.typeOnly);
            && ExportsOnly(f.(exports := f.exports[i := e.(clause := Names(rest))]), f, b)
            && (rest == [] ==> ExportsOnly(f.(exports := f.exports[..i] + f.exports[i + 1..]), f, b))
  {
    var e := f.exports[i];
    var rest := e.clause.specifiers[..k] + e.clause.specifiers[k + 1..];
    var b := Binding(e.from, Listed(e.clause.specifiers[k]), e.typeOnly);
    var shrunk := e.(clause := Names(rest));
    ListedWithout(e.from, e.clause.specifiers, k, e.typeOnly);
    SumReplaced(f.exports, i, shrunk, ExportsOf);
    assert ExportsOf(e) == ExportsOf(shrunk) + multiset{b};
    Cancel(AllExports(f.exports), ExportsOf(shrunk), AllExports(f.exports[i := shrunk]), multiset{b});
  }

  // A removal takes one listed export of that name and module, when there is one.
  lemma UnexportingMeans(
      lower: string -> string, valid: string -> bool, f: File, name: string, from: string, place: nat)
    requires Perform(lower, valid, f, RemoveExport(name, from), place).Some?
    ensures var g := Perform(lower, valid, f, RemoveExport(name, from), place).value;
            var there := exists e :: e in f.exports && ExportsName(from, name)(e);
            && (there ==> exists b: Binding ::
                  b.from == Some(from) && b.what.Listed? && b.what.specifier.name == name && ExportsOnly(g, f, b))
            && (!there ==> g == f)
  {
    var i := FirstOf(f.exports, ExportsName(from, name));
    if i < |f.exports| {
      var specifiers := f.exports[i].clause.specifiers;
      var k := FirstOf(specifiers, NamedAs(name));
      FirstOfNamed(specifiers, name);
      ExportShrunk(f, i, k);
    }
  }
}

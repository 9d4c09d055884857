// Sorting a file's import declarations within their runs, and the names inside their braces.
module ImportOrder {
  import opened Prelude
  import opened Imports
  import Sorting

  // A top-level statement or comment, in its place: whether a blank line stands above it, and
  // whether a comment is attached to it.
  datatype Statement =
    | Declaration(decl: Import, blankAbove: bool, attached: bool)
    | Other(text: string, blankAbove: bool)

  // A side-effect import and a declaration with a comment attached never move.
  predicate Movable(s: Statement) {
    s.Declaration? && s.decl.clause.Some? && !s.attached
  }

  // Whether statement `i` goes on with the run of the statement above it.
  predicate Continues(file: seq<Statement>, i: nat)
    requires 0 < i < |file|
  {
    Movable(file[i - 1]) && Movable(file[i]) && !file[i].blankAbove
  }

  // The run that holds statement `i`: where it starts, and behind its end.
  function RunStart(file: seq<Statement>, i: nat): (start: nat)
    requires i < |file|
    ensures start <= i
  {
    if i > 0 && Continues(file, i) then RunStart(file, i - 1) else i
  }

  function RunEnd(file: seq<Statement>, i: nat): (end: nat)
    requires i < |file|
    ensures i < end <= |file|
    decreases |file| - i
  {
    if i + 1 < |file| && Continues(file, i + 1) then RunEnd(file, i + 1) else i + 1
  }

  // `i..end` is a run: consecutive movable declarations, as many as go together.
  ghost predicate IsRun(file: seq<Statement>, i: nat, end: nat) {
    && i < end <= |file|
    && Movable(file[i])
    && (i > 0 ==> !Continues(file, i))
    && (forall k: nat :: i < k < end ==> ContinuesAt(file, k))
    && (end < |file| ==> !Continues(file, end))
  }

  predicate ContinuesAt(file: seq<Statement>, k: nat) {
    0 < k < |file| && Continues(file, k)
  }

  function ModuleOf(s: Statement): Import {
    if s.Declaration? then s.decl else Import("", None)
  }

  // The declarations at `i..end`.
  function Declarations(file: seq<Statement>, i: nat, end: nat): (decls: seq<Import>)
    requires i <= end <= |file|
    ensures |decls| == end - i && forall k: nat :: k < end - i ==> decls[k] == ModuleOf(file[i + k])
  {
    seq(end - i, k requires 0 <= k < end - i => ModuleOf(file[i + k]))
  }

  function SortedDeclarations(lower: string -> string, file: seq<Statement>, i: nat, end: nat): (decls: seq<Import>)
    requires i <= end <= |file|
    ensures |decls| == end - i
  {
    Sorting.StableSort(ByModule(lower), Declarations(file, i, end))
  }

  // The statement at place `k` once the run `i..end` around it is sorted; its surroundings stay.
  function SortedInRun(lower: string -> string, file: seq<Statement>, i: nat, end: nat, k: nat): Statement
    requires i <= k < end <= |file| && Movable(file[k])
  {
    file[k].(decl := SortedDeclarations(lower, file, i, end)[k - i])
  }

  function SortedAt(lower: string -> string, file: seq<Statement>, k: nat): Statement
    requires k < |file|
  {
    if Movable(file[k]) then SortedInRun(lower, file, RunStart(file, k), RunEnd(file, k), k) else file[k]
  }

  function SortRuns(lower: string -> string, file: seq<Statement>): (r: seq<Statement>)
    ensures |r| == |file| && forall k: nat :: k < |file| ==> r[k] == SortedAt(lower, file, k)
  {
    seq(|file|, k requires 0 <= k < |file| => SortedAt(lower, file, k))
  }

  // The names in the braces, sorted into the existing slots; braces holding a comment stay.
  function SortedNames(lower: string -> string, d: Import): Import {
    if d.clause.Some? && d.clause.value.bindings.Named? && !d.clause.value.bindings.commented then
      d.(clause := Some(d.clause.value.(bindings :=
        d.clause.value.bindings.(specifiers := Sorting.StableSort(ByName(lower), Specifiers(d))))))
    else d
  }

  function NamesSorted(lower: string -> string, file: seq<Statement>): (r: seq<Statement>)
    ensures |r| == |file| && forall k :: 0 <= k < |file| ==> r[k] == SortedStatement(lower, file[k])
  {
    if file == [] then [] else [SortedStatement(lower, file[0])] + NamesSorted(lower, file[1..])
  }

  function SortedStatement(lower: string -> string, s: Statement): Statement {
    if s.Declaration? then s.(decl := SortedNames(lower, s.decl)) else s
  }

  function SortImports(lower: string -> string, file: seq<Statement>): (r: seq<Statement>)
    ensures |r| == |file|
  {
    NamesSorted(lower, SortRuns(lower, file))
  }

  // ---------------------------------------------------------------- runs

  lemma {:induction false} StartOfRun(file: seq<Statement>, i: nat, end: nat, k: nat)
    requires IsRun(file, i, end) && i <= k < end
    ensures RunStart(file, k) == i && Movable(file[k])
    decreases k
  {
    if i < k {
      assert ContinuesAt(file, k);
      StartOfRun(file, i, end, k - 1);
    }
  }

  lemma {:induction false} EndOfRun(file: seq<Statement>, i: nat, end: nat, k: nat)
    requires IsRun(file, i, end) && i <= k < end
    ensures RunEnd(file, k) == end
    decreases end - k
  {
    if k + 1 < end {
      assert ContinuesAt(file, k + 1);
      EndOfRun(file, i, end, k + 1);
    }
  }

  lemma {:induction false} StartsRun(file: seq<Statement>, k: nat)
    requires k < |file| && Movable(file[k])
    ensures var i := RunStart(file, k);
            && Movable(file[i]) && (i > 0 ==> !Continues(file, i))
            && forall j: nat :: i < j <= k ==> ContinuesAt(file, j)
    decreases k
  {
    if k > 0 && Continues(file, k) {
      StartsRun(file, k - 1);
      assert ContinuesAt(file, k);
    }
  }

  lemma {:induction false} EndsRun(file: seq<Statement>, k: nat)
    requires k < |file|
    ensures var end := RunEnd(file, k);
            && (end < |file| ==> !Continues(file, end))
            && forall j: nat :: k < j < end ==> ContinuesAt(file, j)
    decreases |file| - k
  {
    if k + 1 < |file| && Continues(file, k + 1) {
      EndsRun(file, k + 1);
      assert ContinuesAt(file, k + 1);
    }
  }

  // Every movable declaration lies in exactly one run.
  lemma InItsRun(file: seq<Statement>, k: nat)
    requires k < |file| && Movable(file[k])
    ensures IsRun(file, RunStart(file, k), RunEnd(file, k))
  {
    StartsRun(file, k);
    EndsRun(file, k);
    forall j: nat | RunStart(file, k) < j < RunEnd(file, k) ensures ContinuesAt(file, j) {}
  }

  // ---------------------------------------------------------------- what moves, and where

  // The places of a movable statement and of any other are the same before and after.
  ghost predicate SamePlaces(a: seq<Statement>, b: seq<Statement>) {
    |a| == |b| && forall k: nat :: k < |a| ==> SamePlaceAt(a, b, k)
  }

  ghost predicate SamePlaceAt(a: seq<Statement>, b: seq<Statement>, k: nat) {
    k < |a| == |b| && SamePlace(a[k], b[k])
  }

  predicate SamePlace(a: Statement, b: Statement) {
    && a.blankAbove == b.blankAbove
    && (Movable(a) <==> Movable(b))
    && (a.Declaration? <==> b.Declaration?)
    && (a.Declaration? ==> a.attached == b.attached)
  }

  // The declarations of a sorted run are those of the run.
  lemma SortedIsMovable(lower: string -> string, file: seq<Statement>, i: nat, end: nat, k: nat)
    requires IsRun(file, i, end) && i <= k < end
    ensures SortedDeclarations(lower, file, i, end)[k - i].clause.Some?
  {
    RunHasClauses(file, i, end);
    Sorting.SortedElement(ByModule(lower), Declarations(file, i, end), k - i);
  }

  lemma RunHasClauses(file: seq<Statement>, i: nat, end: nat)
    requires IsRun(file, i, end)
    ensures forall d :: d in Declarations(file, i, end) ==> d.clause.Some?
  {
    forall j: nat | j < end - i ensures Declarations(file, i, end)[j].clause.Some? { StartOfRun(file, i, end, i + j); }
  }

  lemma RunsKeepPlaces(lower: string -> string, file: seq<Statement>)
    ensures SamePlaces(file, SortRuns(lower, file))
    ensures forall k: nat :: k < |file| && !Movable(file[k]) ==> SortRuns(lower, file)[k] == file[k]
  {
    forall k: nat | k < |file| ensures SamePlaceAt(file, SortRuns(lower, file), k) {
      if Movable(file[k]) {
        InItsRun(file, k);
        SortedIsMovable(lower, file, RunStart(file, k), RunEnd(file, k), k);
      }
    }
  }

  lemma SortedAtInRun(lower: string -> string, file: seq<Statement>, i: nat, end: nat, k: nat)
    requires IsRun(file, i, end) && i <= k < end
    ensures Movable(file[k]) && SortedAt(lower, file, k) == SortedInRun(lower, file, i, end, k)
  {
    StartOfRun(file, i, end, k);
    EndOfRun(file, i, end, k);
  }

  lemma PlaceInRun(lower: string -> string, file: seq<Statement>, i: nat, end: nat, j: nat)
    requires IsRun(file, i, end) && j < end - i
    ensures Movable(file[i + j])
            && SortedAt(lower, file, i + j) == file[i + j].(decl := SortedDeclarations(lower, file, i, end)[j])
  {
    SortedAtInRun(lower, file, i, end, i + j);
    assert i + j - i == j;
  }

  lemma RunBecomesSorted(lower: string -> string, file: seq<Statement>, i: nat, end: nat)
    requires IsRun(file, i, end)
    ensures Declarations(SortRuns(lower, file), i, end) == SortedDeclarations(lower, file, i, end)
  {
    var result, sorted := SortRuns(lower, file), SortedDeclarations(lower, file, i, end);
    forall k: nat | k < end - i ensures Declarations(result, i, end)[k] == sorted[k] {
      PlaceInRun(lower, file, i, end, k);
    }
  }

  // Braces are only permuted, stably, into alphabetical order; nothing else of a declaration changes.
  lemma NamesAreOnlyPermuted(lower: string -> string, d: Import, k: Specifier)
    ensures var r := SortedNames(lower, d);
            && r.from == d.from
            && (r.clause.Some? <==> d.clause.Some?)
            && (d.clause.Some? ==>
                  r.clause.value.typeOnly == d.clause.value.typeOnly
                  && r.clause.value.default == d.clause.value.default)
            && multiset(Specifiers(r)) == multiset(Specifiers(d))
            && Sorting.Tied(ByName(lower), k, Specifiers(r)) == Sorting.Tied(ByName(lower), k, Specifiers(d))
            && (r == d || Sorting.Sorted(ByName(lower), Specifiers(r)))
  {
    NameOrderIsPreorder(lower);
    Sorting.StableSortSorts(ByName(lower), Specifiers(d));
    Sorting.StableSortIsStable(ByName(lower), Specifiers(d), k);
  }

  // ---------------------------------------------------------------- idempotence

  lemma SortedNamesTwice(lower: string -> string, d: Import)
    ensures SortedNames(lower, SortedNames(lower, d)) == SortedNames(lower, d)
  {
    NameOrderIsPreorder(lower);
    Sorting.StableSortSorts(ByName(lower), Specifiers(d));
    Sorting.SortedIsFixed(ByName(lower), Sorting.StableSort(ByName(lower), Specifiers(d)));
  }

  lemma SameContinues(a: seq<Statement>, b: seq<Statement>, k: nat)
    requires SamePlaces(a, b) && 0 < k < |a|
    ensures Continues(a, k) <==> Continues(b, k)
  {
    assert SamePlaceAt(a, b, k) && SamePlaceAt(a, b, k - 1);
  }

  // Files with the same places have the same runs.
  lemma SameRuns(a: seq<Statement>, b: seq<Statement>, i: nat, end: nat)
    requires SamePlaces(a, b) && IsRun(b, i, end)
    ensures IsRun(a, i, end)
  {
    assert SamePlaceAt(a, b, i);
    if i > 0 { SameContinues(a, b, i); }
    if end < |a| { SameContinues(a, b, end); }
    forall k: nat | i < k < end ensures ContinuesAt(a, k) {
      assert ContinuesAt(b, k);
      SameContinues(a, b, k);
    }
  }

  lemma NamesKeepPlaces(lower: string -> string, file: seq<Statement>)
    ensures SamePlaces(file, NamesSorted(lower, file))
  {
    forall k: nat | k < |file| ensures SamePlaceAt(file, NamesSorted(lower, file), k) {}
  }

  lemma SortKeepsPlaces(lower: string -> string, file: seq<Statement>)
    ensures SamePlaces(file, SortImports(lower, file))
  {
    var sorted := SortRuns(lower, file);
    RunsKeepPlaces(lower, file);
    NamesKeepPlaces(lower, sorted);
    forall k: nat | k < |file| ensures SamePlaceAt(file, SortImports(lower, file), k) {
      assert SamePlaceAt(file, sorted, k) && SamePlaceAt(sorted, SortImports(lower, file), k);
    }
  }

  // Side-effect imports and commented declarations stay where they are, braces sorted; every
  // other statement stays as it is.
  lemma FixedStatementsStay(lower: string -> string, file: seq<Statement>)
    ensures SamePlaces(file, SortImports(lower, file))
    ensures forall k: nat :: k < |file| && !Movable(file[k]) ==>
              SortImports(lower, file)[k] == SortedStatement(lower, file[k])
    ensures forall k: nat :: k < |file| && file[k].Other? ==> SortImports(lower, file)[k] == file[k]
  {
    RunsKeepPlaces(lower, file);
    SortKeepsPlaces(lower, file);
  }

  function Namer(lower: string -> string): Import -> Import {
    (d: Import) => SortedNames(lower, d)
  }

  lemma NamesMapped(lower: string -> string, file: seq<Statement>, i: nat, end: nat)
    requires i <= end <= |file| && forall k: nat :: i <= k < end ==> file[k].Declaration?
    ensures Declarations(NamesSorted(lower, file), i, end) == Sorting.Mapped(Namer(lower), Declarations(file, i, end))
  {
    var named, mapped :=
        Declarations(NamesSorted(lower, file), i, end), Sorting.Mapped(Namer(lower), Declarations(file, i, end));
    forall k: nat | k < end - i ensures named[k] == mapped[k] {
      assert named[k] == ModuleOf(NamesSorted(lower, file)[i + k]);
      assert mapped[k] == Namer(lower)(Declarations(file, i, end)[k]);
    }
  }

  lemma RunHoldsDeclarations(file: seq<Statement>, i: nat, end: nat)
    requires IsRun(file, i, end)
    ensures forall k: nat :: i <= k < end ==> file[k].Declaration?
  {
    forall k: nat | i <= k < end ensures file[k].Declaration? { if k > i { assert ContinuesAt(file, k); } }
  }

  lemma SortedRunNamed(lower: string -> string, file: seq<Statement>, i: nat, end: nat)
    requires IsRun(file, i, end)
    ensures Declarations(SortImports(lower, file), i, end)
            == Sorting.Mapped(Namer(lower), SortedDeclarations(lower, file, i, end))
  {
    var runs := SortRuns(lower, file);
    RunHoldsDeclarations(file, i, end);
    RunsKeepPlaces(lower, file);
    forall k: nat | i <= k < end ensures runs[k].Declaration? { assert SamePlaceAt(file, runs, k); }
    NamesMapped(lower, runs, i, end);
    RunBecomesSorted(lower, file, i, end);
  }

  lemma NamerKeepsModules(lower: string -> string)
    ensures Sorting.Through(ByModule(lower), Namer(lower), ByModule(lower))
  {
  }

  // Sorting a run's modules and then its names is sorting the modules of the named run.
  lemma RunsThenNames(lower: string -> string, file: seq<Statement>, i: nat, end: nat)
    requires IsRun(file, i, end)
    ensures Declarations(SortImports(lower, file), i, end)
         == Sorting.StableSort(ByModule(lower), Declarations(NamesSorted(lower, file), i, end))
  {
    SortedRunNamed(lower, file, i, end);
    RunHoldsDeclarations(file, i, end);
    NamesMapped(lower, file, i, end);
    NamerKeepsModules(lower);
    Sorting.SortMapped(ByModule(lower), Namer(lower), ByModule(lower), Declarations(file, i, end));
  }

  // Each run holds its own declarations, braces sorted, ordered by module, equal modules in
  // their old order.
  lemma EachRunIsSorted(lower: string -> string, file: seq<Statement>, i: nat, end: nat, k: Import)
    requires IsRun(file, i, end)
    ensures var named, sorted :=
              Declarations(NamesSorted(lower, file), i, end), Declarations(SortImports(lower, file), i, end);
            && multiset(sorted) == multiset(named)
            && Sorting.Sorted(ByModule(lower), sorted)
            && Sorting.Tied(ByModule(lower), k, sorted) == Sorting.Tied(ByModule(lower), k, named)
  {
    RunsThenNames(lower, file, i, end);
    ModuleOrderIsPreorder(lower);
    Sorting.StableSortSorts(ByModule(lower), Declarations(NamesSorted(lower, file), i, end));
    Sorting.StableSortIsStable(ByModule(lower), Declarations(NamesSorted(lower, file), i, end), k);
  }

  lemma SortedAtIsFixed(lower: string -> string, file: seq<Statement>, k: nat)
    requires k < |file| && Movable(file[k])
    requires Sorting.Sorted(ByModule(lower), Declarations(file, RunStart(file, k), RunEnd(file, k)))
    ensures SortedAt(lower, file, k) == file[k]
  {
    var start, end := RunStart(file, k), RunEnd(file, k);
    Sorting.SortedIsFixed(ByModule(lower), Declarations(file, start, end));
    assert Declarations(file, start, end)[k - start] == ModuleOf(file[k]);
  }

  lemma SortedFileIsFixed(lower: string -> string, file: seq<Statement>, k: nat)
    requires k < |file|
    ensures SortedAt(lower, SortImports(lower, file), k) == SortImports(lower, file)[k]
  {
    var once := SortImports(lower, file);
    if Movable(once[k]) {
      var i, end := RunStart(once, k), RunEnd(once, k);
      InItsRun(once, k);
      SortKeepsPlaces(lower, file);
      SameRuns(file, once, i, end);
      EachRunIsSorted(lower, file, i, end, Import("", None));
      SortedAtIsFixed(lower, once, k);
    }
  }

  // Sorting a sorted file changes nothing.
  lemma SortImportsTwice(lower: string -> string, file: seq<Statement>)
    ensures SortImports(lower, SortImports(lower, file)) == SortImports(lower, file)
  {
    var once, sorted := SortImports(lower, file), SortRuns(lower, file);
    forall k: nat | k < |once| ensures SortImports(lower, once)[k] == once[k] {
      SortedFileIsFixed(lower, file, k);
      if once[k].Declaration? { SortedNamesTwice(lower, sorted[k].decl); }
    }
  }

  // ---------------------------------------------------------------- a name into its place

  // The first name that sorts after `name`, or the end.
  function SortedIndex(lower: string -> string, specifiers: seq<Specifier>, name: string): (i: nat)
    ensures i <= |specifiers|
  {
    if specifiers == [] || !TextLe(lower, specifiers[0].name, name) then 0
    else 1 + SortedIndex(lower, specifiers[1..], name)
  }

  // Every name in front sorts no later than `name`, and the one at the index sorts after it.
  lemma {:induction false} SortedIndexSplits(lower: string -> string, specifiers: seq<Specifier>, name: string, k: nat)
    requires k <= SortedIndex(lower, specifiers, name) && k < |specifiers|
    ensures TextLe(lower, specifiers[k].name, name) <==> k < SortedIndex(lower, specifiers, name)
    decreases k
  {
    if k > 0 { SortedIndexSplits(lower, specifiers[1..], name, k - 1); }
  }

  // Names in order stay in order.
  lemma SortedIndexKeepsOrder(lower: string -> string, specifiers: seq<Specifier>, s: Specifier)
    requires Sorting.Sorted(ByName(lower), specifiers)
    ensures var i := SortedIndex(lower, specifiers, s.name);
            Sorting.Sorted(ByName(lower), specifiers[..i] + [s] + specifiers[i..])
    ensures forall k :: 0 <= k < SortedIndex(lower, specifiers, s.name) ==> TextLe(lower, specifiers[k].name, s.name)
  {
    var i := SortedIndex(lower, specifiers, s.name);
    forall k: nat | k < i
      ensures TextLe(lower, specifiers[k].name, s.name)
    {
      SortedIndexSplits(lower, specifiers, s.name, k);
    }
    forall k: nat | i <= k < |specifiers| ensures TextLe(lower, s.name, specifiers[k].name) {
      SortedIndexSplits(lower, specifiers, s.name, i);
      TextTotal(lower, specifiers[i].name, s.name);
      if i < k {
        assert ByName(lower)(specifiers[i], specifiers[k]);
        TextTransitive(lower, s.name, specifiers[i].name, specifiers[k].name);
      }
    }
    InsertedInOrder(lower, specifiers, s, i);
  }

  lemma InsertedInOrder(lower: string -> string, specifiers: seq<Specifier>, s: Specifier, i: nat)
    requires Sorting.Sorted(ByName(lower), specifiers) && i <= |specifiers|
    requires forall k: nat :: k < i ==> TextLe(lower, specifiers[k].name, s.name)
    requires forall k: nat :: i <= k < |specifiers| ==> TextLe(lower, s.name, specifiers[k].name)
    ensures Sorting.Sorted(ByName(lower), specifiers[..i] + [s] + specifiers[i..])
  {
    var all := specifiers[..i] + [s] + specifiers[i..];
    forall a, b | 0 <= a < b < |all| ensures ByName(lower)(all[a], all[b]) {
      var a', b' := if a < i then a else a - 1, if b < i then b else b - 1;
      if a != i && b != i {
        assert all[a] == specifiers[a'] && all[b] == specifiers[b'];
        assert ByName(lower)(specifiers[a'], specifiers[b']);
      }
    }
  }

  // ---------------------------------------------------------------- the loops

  lemma Extend(s: seq<Statement>, i: nat, end: nat)
    requires i <= end <= |s|
    ensures s[..end] == s[..i] + s[i..end]
    ensures end == i + 1 ==> s[i..end] == [s[i]]
  {}

  class SourceFile {
    var statements: seq<Statement>

    constructor (statements: seq<Statement>)
      ensures this.statements == statements
    {
      this.statements := statements;
    }

    // The runs found so far are sorted in place as they end.
    method Sort(lower: string -> string)
      modifies this
      ensures statements == SortImports(lower, old(statements))
    {
      ghost var goal := SortRuns(lower, statements);
      var result, i := [], 0;
      while i < |statements|
        invariant i <= |statements| && statements == old(statements)
        invariant 0 < i < |statements| ==> !Continues(statements, i)
        invariant result == goal[..i]
      {
        if Movable(statements[i]) {
          var end := FindEnd(i);
          InItsRun(statements, i);
          var placed := PlaceRun(lower, i, end);
          Extend(goal, i, end);
          result := result + placed;
          i := end;
        } else {
          Extend(goal, i, i + 1);
          result := result + [statements[i]];
          i := i + 1;
        }
      }
      assert goal[..i] == goal;
      statements := NamesSorted(lower, result);
    }

    // The run's own places, filled with its declarations in order.
    method PlaceRun(lower: string -> string, start: nat, end: nat) returns (placed: seq<Statement>)
      requires IsRun(statements, start, end)
      ensures placed == SortRuns(lower, statements)[start..end]
    {
      var sorted := SortedDeclarations(lower, statements, start, end);
      ghost var goal := SortRuns(lower, statements)[start..end];
      placed := [];
      for j := 0 to end - start
        invariant placed == goal[..j]
      {
        PlaceInRun(lower, statements, start, end, j);
        Extend(goal, j, j + 1);
        placed := placed + [statements[start + j].(decl := sorted[j])];
      }
      assert goal[..end - start] == goal;
    }

    method FindEnd(start: nat) returns (end: nat)
      requires start < |statements|
      ensures end == RunEnd(statements, start)
    {
      end := start + 1;
      while end < |statements| && Continues(statements, end)
        invariant start < end <= |statements|
        invariant RunEnd(statements, start) == RunEnd(statements, end - 1)
      {
        end := end + 1;
      }
    }
  }
}

// Import and export declarations of one TypeScript file, and the order of their names.
module Imports {
  import opened Prelude
  import Sorting

  datatype Specifier = Specifier(name: string, alias: Option<string>, typeOnly: bool)

  // What the braces or the star bind; braces may hold a comment.
  datatype Bindings = NoBindings | Namespace(name: string) | Named(specifiers: seq<Specifier>, commented: bool)

  datatype Clause = Clause(typeOnly: bool, default: Option<string>, bindings: Bindings)

  // `import "from";` has no clause.
  datatype Import = Import(from: string, clause: Option<Clause>)

  function Specifiers(d: Import): seq<Specifier> {
    if d.clause.Some? && d.clause.value.bindings.Named? then d.clause.value.bindings.specifiers else []
  }

  // ---------------------------------------------------------------- order

  // String comparison by UTF-16 code units.
  predicate UnitsLe(a: string, b: string) {
    Sorting.LexLe(Sorting.CodeUnits(a), Sorting.CodeUnits(b))
  }

  // Case-insensitive with an ordinal tie-break: `compareText(a, b) <= 0`. `lower` is toLowerCase.
  predicate TextLe(lower: string -> string, a: string, b: string) {
    if lower(a) != lower(b) then UnitsLe(lower(a), lower(b)) else UnitsLe(a, b)
  }

  predicate IsRelative(from: string) {
    from != "" && from[0] == '.'
  }

  // Packages ahead of relative paths.
  predicate ModuleLe(lower: string -> string, a: string, b: string) {
    if IsRelative(a) != IsRelative(b) then IsRelative(b) else TextLe(lower, a, b)
  }

  predicate DeclarationLe(lower: string -> string, a: Import, b: Import) {
    ModuleLe(lower, a.from, b.from)
  }

  predicate SpecifierLe(lower: string -> string, a: Specifier, b: Specifier) {
    TextLe(lower, a.name, b.name)
  }

  function ByModule(lower: string -> string): Sorting.Order<Import> {
    (a, b) => DeclarationLe(lower, a, b)
  }

  function ByName(lower: string -> string): Sorting.Order<Specifier> {
    (a, b) => SpecifierLe(lower, a, b)
  }

  lemma UnitsTotal(a: string, b: string)
    ensures UnitsLe(a, b) || UnitsLe(b, a)
  {
    Sorting.LexTotal(Sorting.CodeUnits(a), Sorting.CodeUnits(b));
  }

  lemma UnitsTransitive(a: string, b: string, c: string)
    requires UnitsLe(a, b) && UnitsLe(b, c)
    ensures UnitsLe(a, c)
  {
    Sorting.LexTransitive(Sorting.CodeUnits(a), Sorting.CodeUnits(b), Sorting.CodeUnits(c));
  }

  // Equal code units are equal strings: no character outside the basic plane shares its first unit
  // with one inside it.
  lemma {:induction false} UnitsInjective(a: string, b: string)
    requires Sorting.CodeUnits(a) == Sorting.CodeUnits(b)
    ensures a == b
  {
    if a == "" || b == "" {
    } else {
      FirstUnits(a);
      FirstUnits(b);
      var n := |Units(a[0])|;
      assert Sorting.CodeUnits(a)[0] == Sorting.CodeUnits(b)[0];
      assert |Units(a[0])| == |Units(b[0])|;
      assert Sorting.CodeUnits(a)[..n] == Sorting.CodeUnits(b)[..n];
      assert Units(a[0]) == Sorting.CodeUnits(a)[..n] && Units(b[0]) == Sorting.CodeUnits(b)[..n];
      SameUnits(a[0], b[0]);
      assert Sorting.CodeUnits(a[1..]) == Sorting.CodeUnits(a)[n..]
             && Sorting.CodeUnits(b[1..]) == Sorting.CodeUnits(b)[n..];
      UnitsInjective(a[1..], b[1..]);
      assert a == [a[0]] + a[1..] && b == [b[0]] + b[1..];
    }
  }

  function Units(c: char): seq<int> {
    var n := c as int;
    if n < 0x1_0000 then [n] else [0xD800 + (n - 0x1_0000) / 0x400, 0xDC00 + (n - 0x1_0000) % 0x400]
  }

  lemma FirstUnits(s: string)
    requires s != ""
    ensures Sorting.CodeUnits(s) == Units(s[0]) + Sorting.CodeUnits(s[1..])
  {}

  lemma SameUnits(a: char, b: char)
    requires Units(a) == Units(b)
    ensures a == b
  {
    if (a as int) < 0x1_0000 {
      assert Units(a)[0] == Units(b)[0];
    } else {
      assert Units(a)[0] == Units(b)[0] && Units(a)[1] == Units(b)[1];
    }
  }

  // Two names tie only when they are the same name.
  lemma TextAntisymmetric(lower: string -> string, a: string, b: string)
    requires TextLe(lower, a, b) && TextLe(lower, b, a)
    ensures a == b
  {
    if lower(a) != lower(b) {
      Sorting.LexAntisymmetric(Sorting.CodeUnits(lower(a)), Sorting.CodeUnits(lower(b)));
      UnitsInjective(lower(a), lower(b));
    } else {
      Sorting.LexAntisymmetric(Sorting.CodeUnits(a), Sorting.CodeUnits(b));
      UnitsInjective(a, b);
    }
  }

  lemma TextTotal(lower: string -> string, a: string, b: string)
    ensures TextLe(lower, a, b) || TextLe(lower, b, a)
  {
    UnitsTotal(lower(a), lower(b));
    UnitsTotal(a, b);
  }

  lemma TextTransitive(lower: string -> string, a: string, b: string, c: string)
    requires TextLe(lower, a, b) && TextLe(lower, b, c)
    ensures TextLe(lower, a, c)
  {
    if lower(a) == lower(b) == lower(c) {
      UnitsTransitive(a, b, c);
    } else if lower(a) != lower(b) && lower(b) != lower(c) {
      UnitsTransitive(lower(a), lower(b), lower(c));
      if lower(a) == lower(c) {
        Sorting.LexAntisymmetric(Sorting.CodeUnits(lower(a)), Sorting.CodeUnits(lower(b)));
        UnitsInjective(lower(a), lower(b));
        assert false;
      }
    }
  }

  lemma ModuleOrderIsPreorder(lower: string -> string)
    ensures Sorting.TotalPreorder(ByModule(lower))
  {
    var le := ByModule(lower);
    forall a: Import, b: Import ensures le(a, b) || le(b, a) {
      TextTotal(lower, a.from, b.from);
    }
    forall a: Import, b: Import, c: Import | le(a, b) && le(b, c) ensures le(a, c) {
      if IsRelative(a.from) == IsRelative(b.from) == IsRelative(c.from) {
        TextTransitive(lower, a.from, b.from, c.from);
      }
    }
  }

  lemma NameOrderIsPreorder(lower: string -> string)
    ensures Sorting.TotalPreorder(ByName(lower))
  {
    var le := ByName(lower);
    forall a: Specifier, b: Specifier ensures le(a, b) || le(b, a) {
      TextTotal(lower, a.name, b.name);
    }
    forall a: Specifier, b: Specifier, c: Specifier | le(a, b) && le(b, c) ensures le(a, c) {
      TextTransitive(lower, a.name, b.name, c.name);
    }
  }
}

// The stable sort of `Array.prototype.sort`, and the text orders the operations sort by.
module Sorting {
  // `le(a, b)` is `compare(a, b) <= 0`.
  type Order<!T> = (T, T) -> bool

  ghost predicate TotalPreorder<T(!new)>(le: Order<T>) {
    && (forall a, b :: le(a, b) || le(b, a))
    && (forall a, b, c :: le(a, b) && le(b, c) ==> le(a, c))
  }

  function Insert<T>(le: Order<T>, x: T, xs: seq<T>): (r: seq<T>)
    ensures multiset(r) == multiset([x]) + multiset(xs)
  {
    if xs == [] || le(x, xs[0]) then
      [x] + xs
    else
      assert xs == [xs[0]] + xs[1..];
      [xs[0]] + Insert(le, x, xs[1..])
  }

  // Equal elements keep their order.
  function StableSort<T>(le: Order<T>, xs: seq<T>): (r: seq<T>)
    ensures multiset(r) == multiset(xs) && |r| == |xs|
  {
    if xs == [] then []
    else
      assert xs == [xs[0]] + xs[1..];
      SameMultisetSameLength(Insert(le, xs[0], StableSort(le, xs[1..])), xs);
      Insert(le, xs[0], StableSort(le, xs[1..]))
  }

  lemma SameMultisetSameLength<T>(a: seq<T>, b: seq<T>)
    requires multiset(a) == multiset(b)
    ensures |a| == |b|
  {
    assert |multiset(a)| == |a| && |multiset(b)| == |b|;
  }

  ghost predicate Sorted<T>(le: Order<T>, xs: seq<T>) {
    forall i, j :: 0 <= i < j < |xs| ==> le(xs[i], xs[j])
  }

  lemma {:induction false} InsertSorted<T(!new)>(le: Order<T>, x: T, xs: seq<T>)
    requires TotalPreorder(le) && Sorted(le, xs)
    ensures Sorted(le, Insert(le, x, xs))
  {
    if !(xs == [] || le(x, xs[0])) {
      InsertSorted(le, x, xs[1..]);
      var r := Insert(le, x, xs[1..]);
      forall j | 0 <= j < |r| ensures le(xs[0], r[j]) {
        assert r[j] in multiset(r);
        assert r[j] == x || r[j] in xs[1..];
      }
    }
  }

  lemma {:induction false} StableSortSorts<T(!new)>(le: Order<T>, xs: seq<T>)
    requires TotalPreorder(le)
    ensures Sorted(le, StableSort(le, xs))
  {
    if xs != [] {
      StableSortSorts(le, xs[1..]);
      InsertSorted(le, xs[0], StableSort(le, xs[1..]));
    }
  }

  predicate Ties<T>(le: Order<T>, a: T, b: T) {
    le(a, b) && le(b, a)
  }

  // The elements tied with `k`, in order.
  function Tied<T>(le: Order<T>, k: T, xs: seq<T>): seq<T> {
    if xs == [] then [] else (if Ties(le, k, xs[0]) then [xs[0]] else []) + Tied(le, k, xs[1..])
  }

  lemma TiedCons<T>(le: Order<T>, k: T, x: T, xs: seq<T>)
    ensures Tied(le, k, [x] + xs) == (if Ties(le, k, x) then [x] else []) + Tied(le, k, xs)
  {
    assert ([x] + xs)[1..] == xs;
  }

  lemma {:induction false} InsertKeepsTies<T>(le: Order<T>, x: T, xs: seq<T>, k: T)
    requires Ties(le, k, x) ==> forall i :: 0 <= i < |xs| && Ties(le, k, xs[i]) ==> le(x, xs[i])
    ensures Tied(le, k, Insert(le, x, xs)) == (if Ties(le, k, x) then [x] else []) + Tied(le, k, xs)
  {
    if xs == [] || le(x, xs[0]) {
      TiedCons(le, k, x, xs);
    } else {
      InsertKeepsTies(le, x, xs[1..], k);
      TiedCons(le, k, xs[0], Insert(le, x, xs[1..]));
      if Ties(le, k, x) { assert !Ties(le, k, xs[0]); }
    }
  }

  lemma TiesAreOrdered<T(!new)>(le: Order<T>, x: T, xs: seq<T>, k: T)
    requires TotalPreorder(le) && Ties(le, k, x)
    ensures forall i :: 0 <= i < |xs| && Ties(le, k, xs[i]) ==> le(x, xs[i])
  {
  }

  lemma {:induction false} StableSortIsStable<T(!new)>(le: Order<T>, xs: seq<T>, k: T)
    requires TotalPreorder(le)
    ensures Tied(le, k, StableSort(le, xs)) == Tied(le, k, xs)
  {
    if xs != [] {
      StableSortIsStable(le, xs[1..], k);
      if Ties(le, k, xs[0]) { TiesAreOrdered(le, xs[0], StableSort(le, xs[1..]), k); }
      InsertKeepsTies(le, xs[0], StableSort(le, xs[1..]), k);
    }
  }

  lemma {:induction false} SortedIsFixed<T>(le: Order<T>, xs: seq<T>)
    requires Sorted(le, xs)
    ensures StableSort(le, xs) == xs
  {
    if xs != [] {
      SortedIsFixed(le, xs[1..]);
    }
  }

  // ---------------------------------------------------------------- sorting carriers

  function Mapped<A, B>(f: A -> B, xs: seq<A>): (r: seq<B>)
    ensures |r| == |xs| && forall i :: 0 <= i < |xs| ==> r[i] == f(xs[i])
  {
    if xs == [] then [] else [f(xs[0])] + Mapped(f, xs[1..])
  }

  lemma MappedCons<A, B>(f: A -> B, x: A, xs: seq<A>)
    ensures Mapped(f, [x] + xs) == [f(x)] + Mapped(f, xs)
  {
    assert ([x] + xs)[1..] == xs;
  }

  // Elements compared through `f`.
  ghost predicate Through<A(!new), B>(le: Order<B>, f: A -> B, via: Order<A>) {
    forall a, b :: via(a, b) == le(f(a), f(b))
  }

  lemma {:induction false} InsertMapped<A(!new), B>(le: Order<B>, f: A -> B, via: Order<A>, x: A, xs: seq<A>)
    requires Through(le, f, via)
    ensures Mapped(f, Insert(via, x, xs)) == Insert(le, f(x), Mapped(f, xs))
  {
    if xs == [] || via(x, xs[0]) {
      MappedCons(f, x, xs);
    } else {
      InsertMapped(le, f, via, x, xs[1..]);
      MappedCons(f, xs[0], Insert(via, x, xs[1..]));
      assert Mapped(f, xs)[1..] == Mapped(f, xs[1..]);
    }
  }

  // Sorting carriers by what they carry sorts what they carry.
  lemma {:induction false} SortMapped<A(!new), B>(le: Order<B>, f: A -> B, via: Order<A>, xs: seq<A>)
    requires Through(le, f, via)
    ensures Mapped(f, StableSort(via, xs)) == StableSort(le, Mapped(f, xs))
  {
    if xs != [] {
      SortMapped(le, f, via, xs[1..]);
      InsertMapped(le, f, via, xs[0], StableSort(via, xs[1..]));
      assert Mapped(f, xs)[1..] == Mapped(f, xs[1..]);
    }
  }

  lemma SortedElement<T>(le: Order<T>, xs: seq<T>, i: nat)
    requires i < |xs|
    ensures StableSort(le, xs)[i] in xs
  {
    assert StableSort(le, xs)[i] in multiset(StableSort(le, xs));
  }

  // ---------------------------------------------------------------- text orders

  function CodePoints(s: string): seq<int> {
    seq(|s|, i requires 0 <= i < |s| => s[i] as int)
  }

  // UTF-16: a character beyond the basic plane is a surrogate pair.
  function CodeUnits(s: string): seq<int> {
    if s == "" then []
    else
      var n := s[0] as int;
      (if n < 0x1_0000 then [n] else [0xD800 + (n - 0x1_0000) / 0x400, 0xDC00 + (n - 0x1_0000) % 0x400])
          + CodeUnits(s[1..])
  }

  predicate LexLe(a: seq<int>, b: seq<int>) {
    a == [] || (b != [] && (a[0] < b[0] || (a[0] == b[0] && LexLe(a[1..], b[1..]))))
  }

  lemma {:induction false} LexTotal(a: seq<int>, b: seq<int>)
    ensures LexLe(a, b) || LexLe(b, a)
  {
    if a != [] && b != [] { LexTotal(a[1..], b[1..]); }
  }

  lemma {:induction false} LexTransitive(a: seq<int>, b: seq<int>, c: seq<int>)
    requires LexLe(a, b) && LexLe(b, c)
    ensures LexLe(a, c)
  {
    if a != [] && a[0] == b[0] == c[0] { LexTransitive(a[1..], b[1..], c[1..]); }
  }

  lemma {:induction false} LexAntisymmetric(a: seq<int>, b: seq<int>)
    requires LexLe(a, b) && LexLe(b, a)
    ensures a == b
  {
    if a != [] {
      LexAntisymmetric(a[1..], b[1..]);
      assert a == [a[0]] + a[1..] && b == [b[0]] + b[1..];
    }
  }
}

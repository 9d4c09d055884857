// Recursive key sorting, and the data it stands for.
module JsonSortKeys {
  import opened Prelude
  import opened JsonTokens
  import opened JsonSort
  import Sorting

  // ---------------------------------------------------------------- the operation

  function SortedValue(v: Value, recursive: bool): Value
    decreases v, 1
  {
    match v
    case Leaf(_) => v
    case Array(tokens) => Array(if recursive then Rendered(tokens) else tokens)
    case Object(tokens) => Object(SortMembers(if recursive then Rendered(tokens) else tokens))
  }

  // Every member with its own value sorted.
  function Rendered(tokens: seq<Token>): (r: seq<Token>)
    ensures |r| == |tokens|
    decreases tokens, 0
  {
    if tokens == [] then []
    else [RenderedToken(tokens[0])] + Rendered(tokens[1..])
  }

  function RenderedToken(token: Token): Token
    decreases token, 2
  {
    if token.Member? then Member(Item(token.item.key, SortedValue(token.item.value, true))) else token
  }

  // ---------------------------------------------------------------- data

  // Members in document order; an array's members have no key.
  datatype Data = Atom(text: string) | Composite(keyed: bool, members: seq<Field>)
  datatype Field = Field(key: Option<string>, data: Data)

  function DataOf(v: Value): Data
    decreases v, 1
  {
    match v
    case Leaf(text) => Atom(text)
    case Array(tokens) => Composite(false, Fields(tokens))
    case Object(tokens) => Composite(true, Fields(tokens))
  }

  function Fields(tokens: seq<Token>): (fields: seq<Field>)
    ensures |fields| == |Items(tokens)|
    decreases tokens, 0
  {
    if tokens == [] then []
    else if tokens[0].Member? then [FieldIn(tokens[0])] + Fields(tokens[1..])
    else Fields(tokens[1..])
  }

  function FieldIn(token: Token): Field
    requires token.Member?
    decreases token, 3
  {
    FieldOf(token.item)
  }

  function FieldOf(item: Item): Field
    decreases item, 2
  {
    Field(item.key, DataOf(item.value))
  }

  predicate FieldLe(a: Field, b: Field) {
    Sorting.LexLe(Sorting.CodePoints(if a.key.Some? then a.key.value else ""),
                  Sorting.CodePoints(if b.key.Some? then b.key.value else ""))
  }

  // The data with the members of every object stably sorted by key.
  function SortedData(d: Data): Data
    decreases d, 1
  {
    match d
    case Atom(_) => d
    case Composite(keyed, members) =>
      Composite(keyed, if keyed then Sorting.StableSort(FieldLe, SortedFields(members)) else SortedFields(members))
  }

  function SortedFields(fields: seq<Field>): (r: seq<Field>)
    ensures |r| == |fields|
    decreases fields, 0
  {
    if fields == [] then [] else [SortedField(fields[0])] + SortedFields(fields[1..])
  }

  function SortedField(field: Field): Field
    decreases field, 2
  {
    Field(field.key, SortedData(field.data))
  }

  ghost predicate DeeplyWellFormed(v: Value)
    decreases v, 1
  {
    !v.Leaf? ==> WellFormed(v.tokens) && MembersWellFormed(v.tokens)
  }

  ghost predicate MembersWellFormed(tokens: seq<Token>)
    decreases tokens, 0
  {
    tokens == [] || (MemberWellFormed(tokens[0]) && MembersWellFormed(tokens[1..]))
  }

  ghost predicate MemberWellFormed(token: Token)
    decreases token, 2
  {
    token.Member? ==> DeeplyWellFormed(token.item.value)
  }

  // ---------------------------------------------------------------- proofs

  lemma {:induction false} FieldsAreMapped(tokens: seq<Token>)
    ensures Fields(tokens) == Sorting.Mapped(FieldOf, Items(tokens))
  {
    if tokens != [] {
      FieldsAreMapped(tokens[1..]);
      if tokens[0].Member? { Sorting.MappedCons(FieldOf, tokens[0].item, Items(tokens[1..])); }
    }
  }

  lemma FieldOrder()
    ensures Sorting.Through(FieldLe, FieldOf, KeyLe)
  {}

  // Sorting a container's members sorts its fields.
  lemma SortMembersSortsFields(tokens: seq<Token>)
    requires WellFormed(tokens)
    ensures Fields(SortMembers(tokens)) == Sorting.StableSort(FieldLe, Fields(tokens))
  {
    SortMembersSorts(tokens);
    FieldsAreMapped(SortMembers(tokens));
    FieldsAreMapped(tokens);
    FieldOrder();
    Sorting.SortMapped(FieldLe, FieldOf, KeyLe, Items(tokens));
  }

  lemma {:induction false} RenderedKeepsShape(s: Expect, tokens: seq<Token>)
    ensures Run(s, Rendered(tokens)) == Run(s, tokens)
    decreases |tokens|
  {
    if tokens != [] {
      assert Rendered(tokens)[1..] == Rendered(tokens[1..]);
      RenderedKeepsShape(Feed(s, tokens[0]), tokens[1..]);
    }
  }

  lemma {:induction false} RenderedAt(tokens: seq<Token>, i: nat)
    requires i < |tokens|
    ensures Rendered(tokens)[i] == RenderedToken(tokens[i])
    decreases |tokens|
  {
    if i > 0 { RenderedAt(tokens[1..], i - 1); }
  }

  lemma RenderedWellFormed(tokens: seq<Token>)
    requires WellFormed(tokens)
    ensures WellFormed(Rendered(tokens))
  {
    RenderedKeepsShape(Start, tokens);
    forall i: nat | i < |tokens| ensures ClosedAt(Rendered(tokens), i) {
      assert ClosedAt(tokens, i);
      RenderedAt(tokens, i);
      if i + 1 < |tokens| { RenderedAt(tokens, i + 1); }
    }
  }

  // Recursive sorting sorts exactly the data, at every level.
  lemma {:induction false} SortedValueSorts(v: Value)
    requires DeeplyWellFormed(v)
    ensures DataOf(SortedValue(v, true)) == SortedData(DataOf(v))
    decreases v, 1
  {
    if !v.Leaf? {
      RenderedSorts(v.tokens);
      RenderedWellFormed(v.tokens);
      if v.Object? { SortMembersSortsFields(Rendered(v.tokens)); }
    }
  }

  lemma {:induction false} RenderedSorts(tokens: seq<Token>)
    requires MembersWellFormed(tokens)
    ensures Fields(Rendered(tokens)) == SortedFields(Fields(tokens))
    decreases tokens, 0
  {
    if tokens != [] {
      RenderedSorts(tokens[1..]);
      assert Rendered(tokens)[1..] == Rendered(tokens[1..]);
      if tokens[0].Member? {
        MemberSorts(tokens[0]);
        assert Fields(tokens)[1..] == Fields(tokens[1..]);
      }
    }
  }

  lemma {:induction false} MemberSorts(token: Token)
    requires token.Member? && MemberWellFormed(token)
    ensures FieldIn(RenderedToken(token)) == SortedField(FieldIn(token))
    decreases token, 2
  {
    SortedValueSorts(token.item.value);
  }

  // One level only: the members are permuted as they are.
  lemma SortedValueOnce(v: Value)
    requires v.Object? && WellFormed(v.tokens)
    ensures DataOf(SortedValue(v, false)) == Composite(true, Sorting.StableSort(FieldLe, Fields(v.tokens)))
  {
    SortMembersSortsFields(v.tokens);
  }

  ghost predicate AllWellFormed(items: seq<Item>) {
    forall i :: 0 <= i < |items| ==> DeeplyWellFormed(items[i].value)
  }

  lemma AllWellFormedCons(item: Item, rest: seq<Item>)
    ensures AllWellFormed([item] + rest) <==> DeeplyWellFormed(item.value) && AllWellFormed(rest)
  {
    var all := [item] + rest;
    assert all[0] == item && forall i :: 0 <= i < |rest| ==> all[i + 1] == rest[i];
    assert forall i :: 0 < i < |all| ==> all[i] == rest[i - 1];
  }

  lemma {:induction false} MembersWellFormedMeans(tokens: seq<Token>)
    ensures MembersWellFormed(tokens) <==> AllWellFormed(Items(tokens))
    decreases |tokens|
  {
    if tokens != [] {
      MembersWellFormedMeans(tokens[1..]);
      if tokens[0].Member? { AllWellFormedCons(tokens[0].item, Items(tokens[1..])); }
    }
  }

  lemma {:induction false} SortedValueWellFormed(v: Value)
    requires DeeplyWellFormed(v)
    ensures DeeplyWellFormed(SortedValue(v, true))
    decreases v, 1
  {
    if !v.Leaf? {
      RenderedWellFormed(v.tokens);
      RenderedMembersWellFormed(v.tokens);
      if v.Object? { SortMembersKeepsMembers(Rendered(v.tokens)); }
    }
  }

  lemma SortMembersKeepsMembers(tokens: seq<Token>)
    requires WellFormed(tokens) && MembersWellFormed(tokens)
    ensures WellFormed(SortMembers(tokens)) && MembersWellFormed(SortMembers(tokens))
  {
    SortMembersSorts(tokens);
    MembersWellFormedMeans(tokens);
    MembersWellFormedMeans(SortMembers(tokens));
    forall i | 0 <= i < |Items(tokens)| ensures DeeplyWellFormed(Items(SortMembers(tokens))[i].value) {
      Sorting.SortedElement(KeyLe, Items(tokens), i);
    }
  }

  lemma {:induction false} RenderedMembersWellFormed(tokens: seq<Token>)
    requires MembersWellFormed(tokens)
    ensures MembersWellFormed(Rendered(tokens))
    decreases tokens, 0
  {
    if tokens != [] {
      RenderedMemberWellFormed(tokens[0]);
      RenderedMembersWellFormed(tokens[1..]);
      assert Rendered(tokens)[1..] == Rendered(tokens[1..]);
    }
  }

  lemma {:induction false} RenderedMemberWellFormed(token: Token)
    requires MemberWellFormed(token)
    ensures MemberWellFormed(RenderedToken(token))
    decreases token, 2
  {
    if token.Member? { SortedValueWellFormed(token.item.value); }
  }

  // ---------------------------------------------------------------- the order

  lemma KeyOrderIsPreorder()
    ensures Sorting.TotalPreorder(KeyLe)
  {
    forall a: Item, b: Item ensures KeyLe(a, b) || KeyLe(b, a) {
      Sorting.LexTotal(Sorting.CodePoints(Key(a)), Sorting.CodePoints(Key(b)));
    }
    forall a: Item, b: Item, c: Item | KeyLe(a, b) && KeyLe(b, c) ensures KeyLe(a, c) {
      Sorting.LexTransitive(Sorting.CodePoints(Key(a)), Sorting.CodePoints(Key(b)), Sorting.CodePoints(Key(c)));
    }
  }

  // Keys end up in code-point order, equal keys in document order; a second run changes no member.
  lemma SortedKeysAreOrdered(tokens: seq<Token>, k: Item)
    requires WellFormed(tokens)
    ensures Sorting.Sorted(KeyLe, Items(SortMembers(tokens)))
    ensures Sorting.Tied(KeyLe, k, Items(SortMembers(tokens))) == Sorting.Tied(KeyLe, k, Items(tokens))
    ensures Items(SortMembers(SortMembers(tokens))) == Items(SortMembers(tokens))
  {
    KeyOrderIsPreorder();
    SortMembersSorts(tokens);
    SortMembersSorts(SortMembers(tokens));
    Sorting.StableSortSorts(KeyLe, Items(tokens));
    Sorting.StableSortIsStable(KeyLe, Items(tokens), k);
    Sorting.SortedIsFixed(KeyLe, Items(SortMembers(tokens)));
  }

  // The comparison as the loop computes it: negative, zero or positive.
  method CompareCodePoints(a: string, b: string) returns (sign: int)
    ensures sign <= 0 <==> Sorting.LexLe(Sorting.CodePoints(a), Sorting.CodePoints(b))
    ensures sign == 0 <==> a == b
  {
    var left, right := Sorting.CodePoints(a), Sorting.CodePoints(b);
    var index := 0;
    while index < |left| && index < |right|
      invariant 0 <= index <= |left| && index <= |right|
      invariant left[..index] == right[..index]
    {
      var delta := left[index] - right[index];
      if delta != 0 {
        LexDecided(left, right, index);
        return delta;
      }
      index := index + 1;
    }
    LexPrefix(left, right, index);
    sign := |left| - |right|;
    if sign == 0 {
      assert left == left[..index] == right[..index] == right;
      assert a == b by {
        forall i | 0 <= i < |a| ensures a[i] == b[i] { assert left[i] == right[i]; }
      }
    }
  }

  lemma {:induction false} LexDecided(a: seq<int>, b: seq<int>, i: nat)
    requires i < |a| && i < |b| && a[..i] == b[..i] && a[i] != b[i]
    ensures Sorting.LexLe(a, b) <==> a[i] < b[i]
    decreases i
  {
    if i > 0 {
      assert a[0] == a[..i][0] && b[0] == b[..i][0];
      assert a[1..][..i - 1] == a[..i][1..] && b[1..][..i - 1] == b[..i][1..];
      LexDecided(a[1..], b[1..], i - 1);
    }
  }

  lemma {:induction false} LexPrefix(a: seq<int>, b: seq<int>, i: nat)
    requires i <= |a| && i <= |b| && a[..i] == b[..i] && (i == |a| || i == |b|)
    ensures Sorting.LexLe(a, b) <==> |a| <= |b|
    decreases i
  {
    if i > 0 {
      assert a[0] == a[..i][0] && b[0] == b[..i][0];
      assert a[1..][..i - 1] == a[..i][1..] && b[1..][..i - 1] == b[..i][1..];
      LexPrefix(a[1..], b[1..], i - 1);
    }
  }
}

// A YAML document as a tree of nodes in document order, with anchors and aliases, and the
// data it stands for.
module YamlTree {
  import opened Prelude

  // The identity of a node object. A clone made for an alias is a new object.
  datatype Id = Original(n: nat) | Clone(of: Id, at: Id)

  // A mapping's items are entries, each holding a key and a value.
  datatype Kind = Sequence | Mapping | Entry

  datatype Node =
    | Scalar(id: Id, anchor: Option<string>, value: string)
    | Alias(id: Id, source: string)
    | Collection(id: Id, anchor: Option<string>, kind: Kind, items: seq<Node>)

  function AnchorOf(n: Node): Option<string> {
    if n.Alias? then None else n.anchor
  }

  // Every node of the document, in document order.
  function Flat(n: Node): (nodes: seq<Node>)
    ensures nodes != [] && nodes[0] == n
    decreases n, 1
  {
    if n.Collection? then [n] + FlatAll(n.items) else [n]
  }

  function FlatAll(items: seq<Node>): seq<Node>
    decreases items, 0
  {
    if items == [] then [] else Flat(items[0]) + FlatAll(items[1..])
  }

  // The nodes that come before the node `id`.
  function Before(nodes: seq<Node>, id: Id): (front: seq<Node>)
    ensures front <= nodes
  {
    if nodes == [] || nodes[0].id == id then [] else [nodes[0]] + Before(nodes[1..], id)
  }

  function LastAnchored(nodes: seq<Node>, name: string): (found: Option<Node>)
    ensures found.Some? ==> found.value in nodes && AnchorOf(found.value) == Some(name)
    ensures found.None? ==> forall i :: 0 <= i < |nodes| ==> AnchorOf(nodes[i]) != Some(name)
  {
    if nodes == [] then None
    else if AnchorOf(nodes[|nodes| - 1]) == Some(name) then Some(nodes[|nodes| - 1])
    else LastAnchored(nodes[..|nodes| - 1], name)
  }

  // The node an alias stands for: the last one before it that carries the anchor.
  function Target(doc: Node, alias: Node): (target: Option<Node>)
    requires alias.Alias?
    ensures target.Some? ==> target.value in Flat(doc) && AnchorOf(target.value) == Some(alias.source)
  {
    LastAnchored(Before(Flat(doc), alias.id), alias.source)
  }

  // ---------------------------------------------------------------- data

  datatype Data = Atom(value: string) | Composite(kind: Kind, items: seq<Data>) | Deeper | Dangling

  // The data of `n`, unfolded `depth` levels. An alias may lie inside its own target, so
  // documents are compared at every depth.
  function Value(doc: Node, n: Node, depth: nat): Data
    decreases depth, if n.Alias? then 1 else 0
  {
    match n
    case Scalar(_, _, value) => Atom(value)
    case Alias(_, _) =>
      var target := Target(doc, n);
      if target.Some? then Value(doc, target.value, depth) else Dangling
    case Collection(_, _, kind, items) =>
      if depth == 0 then Deeper
      else Composite(kind, seq(|items|, i requires 0 <= i < |items| => Value(doc, items[i], depth - 1)))
  }

  ghost predicate SameData(doc: Node, doc': Node) {
    forall depth: nat :: Value(doc', doc', depth) == Value(doc, doc, depth)
  }

  // ---------------------------------------------------------------- well-formedness

  ghost predicate DistinctIds(nodes: seq<Node>) {
    forall i, j :: 0 <= i < j < |nodes| ==> nodes[i].id != nodes[j].id
  }

  ghost predicate Carrier(doc: Node, n: Node) {
    n in Flat(doc) && AnchorOf(n).Some?
  }

  ghost predicate UniqueAnchors(doc: Node) {
    forall m, n :: Carrier(doc, m) && Carrier(doc, n) && AnchorOf(m) == AnchorOf(n) ==> m == n
  }

  ghost predicate IsAlias(doc: Node, a: Node) {
    a in Flat(doc) && a.Alias?
  }

  ghost predicate AllResolve(doc: Node) {
    forall a :: IsAlias(doc, a) ==> Target(doc, a).Some?
  }

  // ---------------------------------------------------------------- order lemmas

  lemma {:induction false} BeforeIsPrefix(nodes: seq<Node>, p: nat)
    requires p < |nodes| && DistinctIds(nodes)
    ensures Before(nodes, nodes[p].id) == nodes[..p]
  {
    if p > 0 {
      assert nodes[0].id != nodes[p].id;
      assert DistinctIds(nodes[1..]) by {
        forall i, j | 0 <= i < j < |nodes[1..]| ensures nodes[1..][i].id != nodes[1..][j].id {
          assert nodes[i + 1].id != nodes[j + 1].id;
        }
      }
      BeforeIsPrefix(nodes[1..], p - 1);
      assert nodes[1..][p - 1] == nodes[p];
      assert [nodes[0]] + nodes[1..][..p - 1] == nodes[..p];
    }
  }

  lemma {:induction false} FlatAllAppend(front: seq<Node>, back: seq<Node>)
    ensures FlatAll(front + back) == FlatAll(front) + FlatAll(back)
  {
    if front == [] {
      assert front + back == back;
    } else {
      assert (front + back)[1..] == front[1..] + back;
      FlatAllAppend(front[1..], back);
    }
  }

  lemma {:induction false} FlatAllMember(items: seq<Node>, n: Node)
    ensures n in FlatAll(items) <==> exists i :: 0 <= i < |items| && n in Flat(items[i])
  {
    if items != [] {
      FlatAllMember(items[1..], n);
      if n in FlatAll(items[1..]) {
        var i :| 0 <= i < |items[1..]| && n in Flat(items[1..][i]);
        assert n in Flat(items[i + 1]);
      }
      if i :| 0 <= i < |items| && n in Flat(items[i]) {
        if i > 0 { assert n in Flat(items[1..][i - 1]); }
      }
    }
  }

  // A node of a node of the document is a node of the document, and its whole subtree
  // follows it without a gap.
  lemma {:induction false} Subtree(n: Node, m: Node) returns (front: seq<Node>, back: seq<Node>)
    requires m in Flat(n)
    ensures Flat(n) == front + Flat(m) + back
    decreases n, 1
  {
    if m == n {
      front, back := [], [];
    } else {
      var f, b := SubtreeAll(n.items, m);
      front, back := [n] + f, b;
    }
  }

  lemma {:induction false} SubtreeAll(items: seq<Node>, m: Node) returns (front: seq<Node>, back: seq<Node>)
    requires m in FlatAll(items)
    ensures FlatAll(items) == front + Flat(m) + back
    decreases items, 0
  {
    if m in Flat(items[0]) {
      var f, b := Subtree(items[0], m);
      front, back := f, b + FlatAll(items[1..]);
    } else {
      var f, b := SubtreeAll(items[1..], m);
      front, back := Flat(items[0]) + f, b;
    }
  }

  lemma ChildInFlat(n: Node, m: Node, i: nat)
    requires m in Flat(n) && m.Collection? && i < |m.items|
    ensures m.items[i] in Flat(n)
  {
    var front, back := Subtree(n, m);
    FlatAllMember(m.items, m.items[i]);
    assert m.items[i] in Flat(m.items[i]);
  }

  ghost predicate ItemAlike(doc: Node, n: Node, doc': Node, n': Node, depth: nat, i: nat) {
    && n.Collection? && n'.Collection? && i < |n.items| && i < |n'.items| && depth > 0
    && Value(doc', n'.items[i], depth - 1) == Value(doc, n.items[i], depth - 1)
  }

  // Collections of one kind whose items have the same data have the same data.
  lemma SameItemsSameData(doc: Node, n: Node, doc': Node, n': Node, depth: nat)
    requires n.Collection? && n'.Collection? && n.kind == n'.kind && |n.items| == |n'.items| && depth > 0
    requires forall i: nat :: i < |n.items| ==> ItemAlike(doc, n, doc', n', depth, i)
    ensures Value(doc', n', depth) == Value(doc, n, depth)
  {
    forall i | 0 <= i < |n.items| ensures Value(doc', n'.items[i], depth - 1) == Value(doc, n.items[i], depth - 1) {
      assert ItemAlike(doc, n, doc', n', depth, i);
    }
  }
}

// What the edits do to a document's nodes, said on the nodes' identities: which collection's
// children change their order and how, which names change, and that everything else stays.
module YamlEffects {
  import opened Prelude
  import opened YamlTree
  import opened YamlAnchors
  import opened YamlReorder
  import opened YamlOps
  import Sequences
  import Sorting

  function Ids(nodes: seq<Node>): (ids: seq<Id>)
    ensures |ids| == |nodes| && forall i :: 0 <= i < |nodes| ==> ids[i] == nodes[i].id
  {
    seq(|nodes|, i requires 0 <= i < |nodes| => nodes[i].id)
  }

  // The children of a collection, by identity.
  function ChildIds(n: Node): seq<Id> {
    if n.Collection? then Ids(n.items) else []
  }

  // The same node but for the order of its children and what is below them.
  ghost predicate SameShell(n: Node, n': Node) {
    && n'.id == n.id
    && (n.Collection? ==> n'.Collection? && n'.kind == n.kind && n'.anchor == n.anchor)
    && (!n.Collection? ==> n' == n)
  }

  lemma SameIdSameNode(nodes: seq<Node>, m: Node, n: Node)
    requires DistinctIds(nodes) && m in nodes && n in nodes && m.id == n.id
    ensures m == n
  {
    var i, j :| 0 <= i < |nodes| && 0 <= j < |nodes| && nodes[i] == m && nodes[j] == n;
    assert i == j;
  }

  // A node of the reordered document has its children in the new order.
  lemma ReorderedNode(order: Order, doc: Node, n: Node, n': Node)
    requires Permutes(order, doc) && DistinctIds(Flat(doc)) && n in Flat(doc)
    requires n' in Flat(Reorder(order, doc)) && n'.id == n.id
    ensures SameShell(n, n') && (n.Collection? ==> ChildIds(n') == Ids(order(n)))
  {
    ReorderedNodes(order, doc, n');
    var o :| o in Flat(doc) && n' == Reorder(order, o);
    SameIdSameNode(Flat(doc), o, n);
    if n.Collection? {
      forall i | 0 <= i < |order(n)| ensures n'.items[i].id == order(n)[i].id { OrderedItems(order, n, i); }
    }
  }

  lemma StillThere(order: Order, doc: Node, n: Node)
    requires Permutes(order, doc) && n in Flat(doc)
    ensures Reorder(order, n) in Flat(Reorder(order, doc)) && Reorder(order, n).id == n.id
  {
    ReorderedNodes(order, doc, Reorder(order, n));
  }

  // ---------------------------------------------------------------- sortKeys

  // From a mapping or sequence to an item, from an entry to its value: never to a key, never
  // through an alias.
  ghost predicate Leads(a: Node, b: Node) {
    a.Collection? && if a.kind.Entry? then |a.items| == 2 && b == a.items[1] else b in a.items
  }

  ghost predicate IsPath(path: seq<Node>) {
    path != [] && forall i :: 0 <= i < |path| - 1 ==> Leads(path[i], path[i + 1])
  }

  ghost predicate PathBetween(path: seq<Node>, a: Node, b: Node) {
    IsPath(path) && path[0] == a && path[|path| - 1] == b
  }

  ghost predicate Reaches(a: Node, b: Node) {
    exists path :: PathBetween(path, a, b)
  }

  lemma ReachesItself(a: Node)
    ensures Reaches(a, a)
  {
    assert PathBetween([a], a, a);
  }

  lemma ReachesOn(a: Node, b: Node, c: Node)
    requires Leads(a, b) && Reaches(b, c)
    ensures Reaches(a, c)
  {
    var path :| PathBetween(path, b, c);
    var longer := [a] + path;
    forall i | 0 <= i < |longer| - 1 ensures Leads(longer[i], longer[i + 1]) {
      if i > 0 { assert Leads(path[i - 1], path[i]); }
    }
    assert PathBetween(longer, a, c);
  }

  lemma {:induction false} VisitedAllExact(items: seq<Node>, id: Id)
    ensures id in VisitedAll(items) <==> exists i :: 0 <= i < |items| && id in Visited(items[i])
  {
    if items != [] {
      VisitedAllExact(items[1..], id);
      if i :| 0 <= i < |items[1..]| && id in Visited(items[1..][i]) { assert id in Visited(items[i + 1]); }
      if i :| 0 <= i < |items| && id in Visited(items[i]) {
        if i > 0 { assert id in Visited(items[1..][i - 1]); }
      }
    }
  }

  ghost predicate Inner(m: Node) {
    m.Collection? && !m.kind.Entry?
  }

  // What a visit finds is reached.
  lemma {:induction false} VisitedIsReached(n: Node, id: Id) returns (m: Node)
    requires id in Visited(n)
    ensures Reaches(n, m) && Inner(m) && m.id == id
    decreases n
  {
    if Inner(n) && n.id == id {
      ReachesItself(n);
      m := n;
    } else if n.kind.Entry? {
      m := VisitedIsReached(n.items[1], id);
      ReachesOn(n, n.items[1], m);
    } else {
      VisitedAllExact(n.items, id);
      var i :| 0 <= i < |n.items| && id in Visited(n.items[i]);
      m := VisitedIsReached(n.items[i], id);
      ReachesOn(n, n.items[i], m);
    }
  }

  // What is reached is visited.
  lemma {:induction false} ReachedIsVisited(n: Node, m: Node, path: seq<Node>)
    requires PathBetween(path, n, m) && Inner(m)
    ensures m.id in Visited(n)
    decreases |path|
  {
    if |path| > 1 {
      assert Leads(path[0], path[1]);
      forall i | 0 <= i < |path[1..]| - 1 ensures Leads(path[1..][i], path[1..][i + 1]) {
        assert Leads(path[i + 1], path[i + 2]);
      }
      ReachedIsVisited(path[1], m, path[1..]);
      if !n.kind.Entry? { VisitedAllExact(n.items, m.id); }
    }
  }

  lemma {:induction false} PathStaysBelow(doc: Node, path: seq<Node>)
    requires IsPath(path) && path[0] in Flat(doc)
    ensures path[|path| - 1] in Flat(doc)
    decreases |path|
  {
    if |path| > 1 {
      var a, b := path[0], path[1];
      assert Leads(a, b);
      var i :| 0 <= i < |a.items| && a.items[i] == b;
      ChildInFlat(doc, a, i);
      forall i | 0 <= i < |path[1..]| - 1 ensures Leads(path[1..][i], path[1..][i + 1]) {
        assert Leads(path[i + 1], path[i + 2]);
      }
      PathStaysBelow(doc, path[1..]);
    }
  }

  // The mappings a sort orders: the one it is asked for and, recursively, those below it.
  ghost predicate ToBeSorted(mapping: Node, recursive: bool, n: Node) {
    n.Collection? && n.kind.Mapping? && (n == mapping || (recursive && Reaches(mapping, n)))
  }

  lemma SortsExactly(doc: Node, mapping: Node, recursive: bool, n: Node)
    requires DistinctIds(Flat(doc)) && mapping in Flat(doc) && mapping.Collection? && mapping.kind.Mapping?
    requires n in Flat(doc) && n.Collection?
    ensures SortOrder(mapping, recursive)(n)
         == if ToBeSorted(mapping, recursive, n) then Sorting.StableSort((a, b) => EntryLe(a, b), n.items) else n.items
  {
    if n.id == mapping.id { SameIdSameNode(Flat(doc), n, mapping); }
    if recursive && n.kind.Mapping? {
      if n.id in Visited(mapping) {
        var m := VisitedIsReached(mapping, n.id);
        var path :| PathBetween(path, mapping, m);
        PathStaysBelow(doc, path);
        SameIdSameNode(Flat(doc), m, n);
      }
      if Reaches(mapping, n) {
        var path :| PathBetween(path, mapping, n);
        ReachedIsVisited(mapping, n, path);
      }
      ReachesItself(mapping);
    }
  }

  // An accepted sort keeps every node; it puts the entries of the mapping, and when recursive of
  // the mappings it reaches through values and items, in the stable order of their labels; every
  // other collection keeps its children in their old order.
  lemma SortKeysMeans(doc: Node, mapping: Node, recursive: bool, n: Node)
    requires DistinctIds(Flat(doc)) && mapping in Flat(doc) && mapping.Collection? && mapping.kind.Mapping?
    requires Edit(SortOrder(mapping, recursive), doc).Some? && n in Flat(doc)
    ensures var doc' := Edit(SortOrder(mapping, recursive), doc).value;
            && doc'.id == doc.id && (exists n' :: n' in Flat(doc') && n'.id == n.id)
            && forall n' :: n' in Flat(doc') && n'.id == n.id ==>
                 && SameShell(n, n')
                 && (ToBeSorted(mapping, recursive, n) ==>
                       ChildIds(n') == Ids(Sorting.StableSort((a, b) => EntryLe(a, b), n.items)))
                 && (!ToBeSorted(mapping, recursive, n) ==> ChildIds(n') == ChildIds(n))
  {
    var order := SortOrder(mapping, recursive);
    SortPermutes(mapping, recursive, doc);
    StillThere(order, doc, n);
    if n.Collection? { SortsExactly(doc, mapping, recursive, n); }
    forall n' | n' in Flat(Reorder(order, doc)) && n'.id == n.id
      ensures SameShell(n, n') && (n.Collection? ==> ChildIds(n') == Ids(order(n)))
    {
      ReorderedNode(order, doc, n, n');
    }
  }

  // ---------------------------------------------------------------- moveItem

  // An accepted move keeps every node; it puts the one item at its target with the others in
  // their old order, and every other collection keeps its children in theirs.
  lemma MoveItemMeans(doc: Node, list: Node, from: nat, to: nat, n: Node)
    requires DistinctIds(Flat(doc)) && list in Flat(doc) && list.Collection? && list.kind.Sequence?
    requires from < |list.items| && to < |list.items|
    requires Edit(MoveOrder(list, from, to), doc).Some? && n in Flat(doc)
    ensures var doc' := Edit(MoveOrder(list, from, to), doc).value;
            && doc'.id == doc.id && (exists n' :: n' in Flat(doc') && n'.id == n.id)
            && forall n' :: n' in Flat(doc') && n'.id == n.id ==>
                 && SameShell(n, n') && |ChildIds(n')| == |ChildIds(n)|
                 && (n == list ==>
                       ChildIds(n')[to] == ChildIds(n)[from]
                       && Sequences.Without(ChildIds(n'), to) == Sequences.Without(ChildIds(n), from))
                 && (n != list ==> ChildIds(n') == ChildIds(n))
  {
    var order := MoveOrder(list, from, to);
    MovePermutes(list, from, to, doc);
    StillThere(order, doc, n);
    if n.Collection? && n.id == list.id { SameIdSameNode(Flat(doc), n, list); }
    forall n' | n' in Flat(Reorder(order, doc)) && n'.id == n.id
      ensures SameShell(n, n') && (n.Collection? ==> ChildIds(n') == Ids(order(n)))
    {
      ReorderedNode(order, doc, n, n');
    }
    if n == list { MovedIds(n.items, from, to); }
  }

  lemma MovedIds(items: seq<Node>, from: nat, to: nat)
    requires from < |items| && to < |items|
    ensures var r := Sequences.Moved(items, from, to);
            |r| == |items| && Ids(r)[to] == items[from].id
            && Sequences.Without(Ids(r), to) == Sequences.Without(Ids(items), from)
  {
    Sequences.MovedMeans(items, from, to);
    var r := Sequences.Moved(items, from, to);
    var rest := r[..to] + r[to + 1..];
    assert rest == items[..from] + items[from + 1..];
    forall i | 0 <= i < |items| - 1
      ensures Sequences.Without(Ids(r), to)[i] == rest[i].id == Sequences.Without(Ids(items), from)[i] {}
  }

  // ---------------------------------------------------------------- setAnchor

  // Both hold the same text, or collections of one kind with the same children.
  ghost predicate SameContent(n: Node, n': Node) {
    && n'.Scalar? == n.Scalar? && n'.Collection? == n.Collection?
    && (n.Scalar? ==> n'.value == n.value)
    && (n.Collection? ==> n'.kind == n.kind && ChildIds(n') == ChildIds(n))
  }

  // An accepted setAnchor gives the node its name and its aliases that name; every other node and
  // every other alias is as it was, in the same place.
  lemma SetAnchorMeans(doc: Node, node: Node, name: string, p: nat)
    requires DistinctIds(Flat(doc)) && node in Flat(doc) && !node.Alias?
    requires SetAnchor(doc, node, name).Some? && p < |Flat(doc)|
    ensures |Flat(SetAnchor(doc, node, name).value)| == |Flat(doc)|
    ensures var n, n' := Flat(doc)[p], Flat(SetAnchor(doc, node, name).value)[p];
            && n'.id == n.id && n'.Alias? == n.Alias? && SameContent(n, n')
            && (!n.Alias? ==> AnchorOf(n') == if n == node then Some(name) else AnchorOf(n))
            && (n.Alias? ==> n'.source == if Target(doc, n) == Some(node) then name else n.source)
  {
    var n := Flat(doc)[p];
    if n.id == node.id { SameIdSameNode(Flat(doc), n, node); }
    if n.Alias? && Target(doc, n).Some? && Target(doc, n).value.id == node.id {
      SameIdSameNode(Flat(doc), Target(doc, n).value, node);
    }
    if AnchorOf(node) != Some(name) {
      FlatRename(doc, node.id, name, doc);
    }
  }

  // ---------------------------------------------------------------- removeAnchor

  predicate IsAliasOf(doc: Node, n: Node, node: Node) {
    n.Alias? && Target(doc, n) == Some(node)
  }

  // The identity of what stands in a node's place afterwards.
  function IdAfter(doc: Node, node: Node, n: Node): Id {
    if IsAliasOf(doc, n, node) then Clone(node.id, n.id) else n.id
  }

  lemma TargetsIsAliasOf(doc: Node, n: Node, node: Node)
    requires DistinctIds(Flat(doc)) && node in Flat(doc)
    ensures Targets(doc, n, node.id) <==> IsAliasOf(doc, n, node)
  {
    if Targets(doc, n, node.id) { SameIdSameNode(Flat(doc), Target(doc, n).value, node); }
  }

  // removeAnchor takes the anchor off the node and puts a copy of it in the place of each of its
  // aliases; every other node keeps its anchor, its content and its place, every other alias its
  // name.
  lemma RemoveAnchorMeans(doc: Node, node: Node, n: Node)
    requires Removable(doc, node) && AnchorOf(node).Some? && n in Flat(doc)
    ensures var doc' := RemoveAnchor(doc, node);
            && (IsAliasOf(doc, n, node) ==> forall m :: m in Flat(doc') ==> m.id != n.id)
            && (!IsAliasOf(doc, n, node) ==>
                  (exists m :: m in Flat(doc') && m.id == n.id)
                  && forall m :: m in Flat(doc') && m.id == n.id ==> Kept(doc, node, n, m))
  {
    var doc' := RemoveAnchor(doc, node);
    FlatExpand(doc, node, doc);
    TargetsIsAliasOf(doc, n, node);
    forall m | m in Flat(doc') && m.id == n.id
      ensures !IsAliasOf(doc, n, node) && m == Expand(doc, node, n)
    {
      PieceMember(doc, node, Flat(doc), m);
      var o :| o in Flat(doc) && m in Piece(doc, node, o);
      if o.Alias? { assert IsAlias(doc, o) && NoCloneOf(doc, o); }
      PieceIds(doc, node, o, m);
      if !Targets(doc, o, node.id) { SameIdSameNode(Flat(doc), o, n); }
    }
    if !IsAliasOf(doc, n, node) {
      PieceMember(doc, node, Flat(doc), Expand(doc, node, n));
      assert Expand(doc, node, n) in Piece(doc, node, n);
      assert Expand(doc, node, n) in Flat(doc');
      ExpandedIsKept(doc, node, n);
    }
  }

  // The same node, but for the anchor it may have lost and the copies among its children.
  ghost predicate Kept(doc: Node, node: Node, n: Node, m: Node) {
    && m.id == n.id && (n.Alias? ==> m == n)
    && (!n.Alias? ==> !m.Alias? && AnchorOf(m) == if n == node then None else AnchorOf(n))
    && (n.Scalar? ==> m.Scalar? && m.value == n.value)
    && (n.Collection? ==>
          && m.Collection? && m.kind == n.kind && |m.items| == |n.items|
          && forall i :: 0 <= i < |n.items| ==> m.items[i].id == IdAfter(doc, node, n.items[i]))
  }

  lemma ExpandedId(doc: Node, node: Node, n: Node)
    ensures Expand(doc, node, n).id == if Targets(doc, n, node.id) then Clone(node.id, n.id) else n.id
  {
  }

  lemma ExpandedIsKept(doc: Node, node: Node, n: Node)
    requires DistinctIds(Flat(doc)) && node in Flat(doc) && n in Flat(doc) && !IsAliasOf(doc, n, node)
    ensures Kept(doc, node, n, Expand(doc, node, n))
  {
    TargetsIsAliasOf(doc, n, node);
    if n.id == node.id { SameIdSameNode(Flat(doc), n, node); }
    if n.Collection? {
      var m := Expand(doc, node, n);
      forall i | 0 <= i < |n.items| ensures m.items[i].id == IdAfter(doc, node, n.items[i]) {
        TargetsIsAliasOf(doc, n.items[i], node);
        ExpandedId(doc, node, n.items[i]);
        assert m.items[i] == Expand(doc, node, n.items[i]);
      }
    }
  }
}

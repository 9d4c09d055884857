// Reordering edits: sorting a mapping's keys, recursively or not, and moving a sequence item.
module YamlReorder {
  import opened Prelude
  import opened YamlTree
  import Sorting

  // A reordering: for each collection, the order its items are to take.
  type Order = Node -> seq<Node>

  ghost predicate Permutes(order: Order, n: Node)
  {
    forall m :: m in Flat(n) && m.Collection? ==> multiset(order(m)) == multiset(m.items)
  }

  lemma OrderedItems(order: Order, n: Node, i: nat)
    requires n.Collection? && multiset(order(n)) == multiset(n.items) && i < |order(n)|
    ensures order(n)[i] in n.items && order(n)[i] < n
  {
    assert order(n)[i] in multiset(n.items);
    var j :| 0 <= j < |n.items| && n.items[j] == order(n)[i];
  }

  // The document with every collection below `n` in its new order.
  function Reorder(order: Order, n: Node): (r: Node)
    ensures !n.Collection? ==> r == n
    ensures r.id == n.id && AnchorOf(r) == AnchorOf(n) && r.Alias? == n.Alias?
    decreases n
  {
    if n.Collection? && multiset(order(n)) == multiset(n.items) then
      Collection(n.id, n.anchor, n.kind,
        seq(|order(n)|, i requires 0 <= i < |order(n)| && multiset(order(n)) == multiset(n.items) =>
          OrderedItems(order, n, i); Reorder(order, order(n)[i])))
    else n
  }

  // The original document's data, read in the new order.
  function ValueIn(order: Order, doc: Node, n: Node, depth: nat): Data
    decreases depth, if n.Alias? then 1 else 0
  {
    match n
    case Scalar(_, _, value) => Atom(value)
    case Alias(_, _) =>
      var target := Target(doc, n);
      if target.Some? then ValueIn(order, doc, target.value, depth) else Dangling
    case Collection(_, _, kind, _) =>
      if depth == 0 then Deeper
      else Composite(kind,
                     seq(|order(n)|, i requires 0 <= i < |order(n)| => ValueIn(order, doc, order(n)[i], depth - 1)))
  }

  // ---------------------------------------------------------------- what reordering keeps

  // The nodes of a reordered document are the reordered nodes of the document.
  lemma {:induction false} ReorderedNodes(order: Order, n: Node, m: Node)
    requires Permutes(order, n)
    ensures m in Flat(Reorder(order, n)) <==> exists o :: o in Flat(n) && m == Reorder(order, o)
    decreases n
  {
    var r := Reorder(order, n);
    if n.Collection? {
      assert n in Flat(n);
      if m in Flat(r) && m != r {
        FlatAllMember(r.items, m);
        var i :| 0 <= i < |r.items| && m in Flat(r.items[i]);
        var item := order(n)[i];
        ItemPermutes(order, n, i);
        ReorderedNodes(order, item, m);
        var o :| o in Flat(item) && m == Reorder(order, o);
        FlatAllMember(n.items, o);
        assert o in Flat(n);
      }
      if o :| o in Flat(n) && m == Reorder(order, o) {
        if o != n {
          FlatAllMember(n.items, o);
          var j :| 0 <= j < |n.items| && o in Flat(n.items[j]);
          assert n.items[j] in multiset(order(n));
          var i :| 0 <= i < |order(n)| && order(n)[i] == n.items[j];
          ItemPermutes(order, n, i);
          ReorderedNodes(order, order(n)[i], m);
          FlatAllMember(r.items, m);
          assert r.items[i] == Reorder(order, order(n)[i]);
        }
      }
      if m == r { assert n in Flat(n); }
    } else {
      assert Flat(n) == [n];
    }
  }

  lemma ItemPermutes(order: Order, n: Node, i: nat)
    requires Permutes(order, n) && n.Collection? && i < |order(n)|
    ensures order(n)[i] in n.items && order(n)[i] < n && Permutes(order, order(n)[i])
    ensures forall o :: o in Flat(order(n)[i]) ==> o in Flat(n)
  {
    assert n in Flat(n);
    OrderedItems(order, n, i);
    forall o | o in Flat(order(n)[i]) ensures o in Flat(n) {
      FlatAllMember(n.items, o);
    }
  }

  // With unique anchors an accepted reordering leaves every alias on the node it had.
  lemma AliasKeepsItsNode(order: Order, doc: Node, alias: Node)
    requires Permutes(order, doc) && UniqueAnchors(doc)
    requires alias in Flat(doc) && alias.Alias? && Target(doc, alias).Some? && Target(Reorder(order, doc), alias).Some?
    ensures Target(Reorder(order, doc), alias) == Some(Reorder(order, Target(doc, alias).value))
  {
    var found := Target(Reorder(order, doc), alias).value;
    ReorderedNodes(order, doc, found);
    var o :| o in Flat(doc) && found == Reorder(order, o);
    assert Carrier(doc, o) && Carrier(doc, Target(doc, alias).value);
  }

  lemma {:induction false} ReorderedValue(order: Order, doc: Node, n: Node, depth: nat)
    requires Permutes(order, doc) && UniqueAnchors(doc) && AllResolve(doc) && AllResolve(Reorder(order, doc))
    requires n in Flat(doc)
    ensures Value(Reorder(order, doc), Reorder(order, n), depth) == ValueIn(order, doc, n, depth)
    decreases depth, if n.Alias? then 1 else 0, 1
  {
    match n {
      case Scalar(_, _, _) =>
      case Alias(_, _) =>
        ReorderedNodes(order, doc, n);
        assert n == Reorder(order, n) && IsAlias(Reorder(order, doc), n) && IsAlias(doc, n);
        AliasKeepsItsNode(order, doc, n);
        ReorderedValue(order, doc, Target(doc, n).value, depth);
      case Collection(_, _, _, _) => if depth > 0 { ReorderedItems(order, doc, n, depth); }
    }
  }

  lemma {:induction false} ReorderedItems(order: Order, doc: Node, n: Node, depth: nat)
    requires Permutes(order, doc) && UniqueAnchors(doc) && AllResolve(doc) && AllResolve(Reorder(order, doc))
    requires n in Flat(doc) && n.Collection? && depth > 0
    ensures Value(Reorder(order, doc), Reorder(order, n), depth) == ValueIn(order, doc, n, depth)
    decreases depth, 0, 0
  {
    var r := Reorder(order, n);
    assert |r.items| == |order(n)|;
    forall i | 0 <= i < |order(n)|
      ensures Value(Reorder(order, doc), r.items[i], depth - 1) == ValueIn(order, doc, order(n)[i], depth - 1)
    {
      ReorderedItem(order, doc, n, i, depth - 1);
    }
    SameOrderSameData(order, doc, n, Reorder(order, doc), r, depth);
  }

  lemma {:induction false} ReorderedItem(order: Order, doc: Node, n: Node, i: nat, depth: nat)
    requires Permutes(order, doc) && UniqueAnchors(doc) && AllResolve(doc) && AllResolve(Reorder(order, doc))
    requires n in Flat(doc) && n.Collection? && i < |order(n)|
    ensures i < |Reorder(order, n).items|
    ensures Value(Reorder(order, doc), Reorder(order, n).items[i], depth) == ValueIn(order, doc, order(n)[i], depth)
    decreases depth, 2, 0
  {
    OrderedItems(order, n, i);
    var j :| 0 <= j < |n.items| && n.items[j] == order(n)[i];
    ChildInFlat(doc, n, j);
    ReorderedValue(order, doc, order(n)[i], depth);
  }

  lemma SameOrderSameData(order: Order, doc: Node, n: Node, doc': Node, r: Node, depth: nat)
    requires n.Collection? && r.Collection? && n.kind == r.kind && |order(n)| == |r.items| && depth > 0
    requires forall i :: 0 <= i < |r.items| ==>
               Value(doc', r.items[i], depth - 1) == ValueIn(order, doc, order(n)[i], depth - 1)
    ensures Value(doc', r, depth) == ValueIn(order, doc, n, depth)
  {
  }

  // A reordering that the alias check accepts leaves every alias on its node ...
  lemma AcceptedReorderKeepsTargets(order: Order, doc: Node)
    requires Permutes(order, doc) && UniqueAnchors(doc) && AllResolve(doc) && AllResolve(Reorder(order, doc))
    ensures forall a :: IsAlias(doc, a) ==>
              a in Flat(Reorder(order, doc))
              && Target(Reorder(order, doc), a) == Some(Reorder(order, Target(doc, a).value))
  {
    forall a | IsAlias(doc, a)
      ensures a in Flat(Reorder(order, doc))
              && Target(Reorder(order, doc), a) == Some(Reorder(order, Target(doc, a).value))
    {
      ReorderedNodes(order, doc, a);
      assert a == Reorder(order, a) && IsAlias(Reorder(order, doc), a);
      AliasKeepsItsNode(order, doc, a);
    }
  }

  // ... and changes the data by exactly that reordering.
  lemma AcceptedReorderKeepsData(order: Order, doc: Node)
    requires Permutes(order, doc) && UniqueAnchors(doc) && AllResolve(doc) && AllResolve(Reorder(order, doc))
    ensures forall depth: nat ::
              Value(Reorder(order, doc), Reorder(order, doc), depth) == ValueIn(order, doc, doc, depth)
  {
    assert doc in Flat(doc);
    forall depth: nat
      ensures Value(Reorder(order, doc), Reorder(order, doc), depth) == ValueIn(order, doc, doc, depth)
    {
      ReorderedValue(order, doc, doc, depth);
    }
  }

  // ---------------------------------------------------------------- identities

  function IdsOf(nodes: seq<Node>): multiset<Id> {
    if nodes == [] then multiset{} else multiset{nodes[0].id} + IdsOf(nodes[1..])
  }

  lemma {:induction false} IdsOfAppend(front: seq<Node>, back: seq<Node>)
    ensures IdsOf(front + back) == IdsOf(front) + IdsOf(back)
  {
    if front == [] {
      assert front + back == back;
    } else {
      assert (front + back)[1..] == front[1..] + back;
      IdsOfAppend(front[1..], back);
    }
  }

  lemma {:induction false} IdInIdsOf(nodes: seq<Node>, i: nat)
    requires i < |nodes|
    ensures nodes[i].id in IdsOf(nodes)
  {
    if i > 0 { IdInIdsOf(nodes[1..], i - 1); }
  }

  lemma {:induction false} DistinctIdsOf(nodes: seq<Node>)
    ensures DistinctIds(nodes) <==> forall id :: IdsOf(nodes)[id] <= 1
  {
    if nodes != [] {
      var rest := nodes[1..];
      DistinctIdsOf(rest);
      if DistinctIds(nodes) {
        forall i, j | 0 <= i < j < |rest|
          ensures rest[i].id != rest[j].id
        {
          assert nodes[i + 1].id != nodes[j + 1].id;
        }
        forall i | 0 <= i < |rest| ensures rest[i].id != nodes[0].id { assert nodes[i + 1].id != nodes[0].id; }
        NotInIdsOf(rest, nodes[0].id);
      }
      if forall id :: IdsOf(nodes)[id] <= 1 {
        forall id ensures IdsOf(rest)[id] <= 1 { assert IdsOf(nodes)[id] <= 1; }
        forall i, j | 0 <= i < j < |nodes| ensures nodes[i].id != nodes[j].id {
          if i == 0 {
            IdInIdsOf(rest, j - 1);
            assert IdsOf(nodes)[nodes[0].id] <= 1;
          } else {
            assert rest[i - 1].id != rest[j - 1].id;
          }
        }
      }
    }
  }

  lemma {:induction false} NotInIdsOf(nodes: seq<Node>, id: Id)
    requires forall i :: 0 <= i < |nodes| ==> nodes[i].id != id
    ensures id !in IdsOf(nodes)
  {
    if nodes != [] { NotInIdsOf(nodes[1..], id); }
  }

  // The identities below a list of items do not depend on the items' order.
  lemma {:induction false} IdsOfItems(items: seq<Node>, i: nat)
    requires i < |items|
    ensures IdsOf(FlatAll(items)) == IdsOf(Flat(items[i])) + IdsOf(FlatAll(items[..i] + items[i + 1..]))
  {
    assert items == items[..i] + ([items[i]] + items[i + 1..]);
    FlatAllAppend(items[..i], [items[i]] + items[i + 1..]);
    FlatAllAppend(items[..i], items[i + 1..]);
    assert ([items[i]] + items[i + 1..])[1..] == items[i + 1..];
    IdsOfAppend(FlatAll(items[..i]), Flat(items[i]) + FlatAll(items[i + 1..]));
    IdsOfAppend(Flat(items[i]), FlatAll(items[i + 1..]));
    IdsOfAppend(FlatAll(items[..i]), FlatAll(items[i + 1..]));
  }

  lemma {:induction false} SameItemsSameIds(items: seq<Node>, items': seq<Node>)
    requires multiset(items) == multiset(items')
    ensures IdsOf(FlatAll(items)) == IdsOf(FlatAll(items'))
    decreases |items|
  {
    if items == [] {
      Sorting.SameMultisetSameLength(items, items');
    } else {
      assert items[0] in multiset(items');
      var i :| 0 <= i < |items'| && items'[i] == items[0];
      var rest, rest' := items[1..], items'[..i] + items'[i + 1..];
      assert items == [items[0]] + rest;
      assert items' == items'[..i] + [items'[i]] + items'[i + 1..];
      assert multiset(items) == multiset{items[0]} + multiset(rest);
      assert multiset(items') == multiset(items'[..i]) + multiset{items[0]} + multiset(items'[i + 1..]);
      assert multiset(rest') == multiset(items'[..i]) + multiset(items'[i + 1..]);
      assert multiset(rest) == multiset(items) - multiset{items[0]};
      assert multiset(rest') == multiset(items') - multiset{items[0]};
      SameItemsSameIds(rest, rest');
      IdsOfItems(items', i);
      IdsOfAppend(Flat(items[0]), FlatAll(rest));
    }
  }

  lemma {:induction false} ReorderKeepsIds(order: Order, n: Node)
    requires Permutes(order, n)
    ensures IdsOf(Flat(Reorder(order, n))) == IdsOf(Flat(n))
    decreases n, 1
  {
    if n.Collection? {
      assert n in Flat(n);
      var r := Reorder(order, n);
      forall i | 0 <= i < |order(n)|
        ensures order(n)[i] < n && Permutes(order, order(n)[i]) && r.items[i] == Reorder(order, order(n)[i])
      {
        ItemPermutes(order, n, i);
      }
      ReorderAllKeepsIds(order, n, order(n), r.items);
      SameItemsSameIds(order(n), n.items);
      IdsOfAppend([n], FlatAll(n.items));
      IdsOfAppend([r], FlatAll(r.items));
      assert [n][1..] == [] && [r][1..] == [];
    }
  }

  lemma {:induction false} ReorderAllKeepsIds(order: Order, n: Node, items: seq<Node>, items': seq<Node>)
    requires |items| == |items'|
    requires forall i :: 0 <= i < |items| ==>
               items[i] < n && Permutes(order, items[i]) && items'[i] == Reorder(order, items[i])
    ensures IdsOf(FlatAll(items')) == IdsOf(FlatAll(items))
    decreases n, 0, |items|
  {
    if items != [] {
      ReorderKeepsIds(order, items[0]);
      ReorderAllKeepsIds(order, n, items[1..], items'[1..]);
      IdsOfAppend(Flat(items[0]), FlatAll(items[1..]));
      IdsOfAppend(Flat(items'[0]), FlatAll(items'[1..]));
    }
  }

  // Reordering creates and loses no node.
  lemma ReorderKeepsDistinctIds(order: Order, doc: Node)
    requires Permutes(order, doc) && DistinctIds(Flat(doc))
    ensures DistinctIds(Flat(Reorder(order, doc)))
  {
    ReorderKeepsIds(order, doc);
    DistinctIdsOf(Flat(doc));
    DistinctIdsOf(Flat(Reorder(order, doc)));
  }
}

// Renaming and removing an anchor.
module YamlAnchors {
  import opened Prelude
  import opened YamlTree

  function Targets(doc: Node, n: Node, node: Id): bool {
    n.Alias? && Target(doc, n).Some? && Target(doc, n).value.id == node
  }

  // ---------------------------------------------------------------- setAnchor

  // The document with every alias of `node` re-pointed and the node itself renamed.
  function Rename(doc: Node, node: Id, name: string, n: Node): (r: Node)
    ensures r.id == n.id && r.Alias? == n.Alias?
    decreases n
  {
    match n
    case Scalar(id, anchor, value) => Scalar(id, if id == node then Some(name) else anchor, value)
    case Alias(id, source) => Alias(id, if Targets(doc, n, node) then name else source)
    case Collection(id, anchor, kind, items) =>
      Collection(id, if id == node then Some(name) else anchor, kind,
                 seq(|items|, i requires 0 <= i < |items| => Rename(doc, node, name, items[i])))
  }

  function RenameAll(doc: Node, node: Id, name: string, nodes: seq<Node>): (r: seq<Node>)
    ensures |r| == |nodes|
  {
    seq(|nodes|, i requires 0 <= i < |nodes| => Rename(doc, node, name, nodes[i]))
  }

  lemma {:induction false} FlatRename(doc: Node, node: Id, name: string, n: Node)
    ensures Flat(Rename(doc, node, name, n)) == RenameAll(doc, node, name, Flat(n))
    decreases n, 1
  {
    if n.Collection? {
      FlatAllRename(doc, node, name, n.items);
      assert Rename(doc, node, name, n).items == RenameAll(doc, node, name, n.items);
    }
  }

  lemma {:induction false} FlatAllRename(doc: Node, node: Id, name: string, items: seq<Node>)
    ensures FlatAll(RenameAll(doc, node, name, items)) == RenameAll(doc, node, name, FlatAll(items))
    decreases items, 0
  {
    if items != [] {
      FlatRename(doc, node, name, items[0]);
      FlatAllRename(doc, node, name, items[1..]);
      assert RenameAll(doc, node, name, items)[1..] == RenameAll(doc, node, name, items[1..]);
    }
  }

  lemma {:induction false} BeforeRename(doc: Node, node: Id, name: string, nodes: seq<Node>, id: Id)
    ensures Before(RenameAll(doc, node, name, nodes), id) == RenameAll(doc, node, name, Before(nodes, id))
  {
    if nodes != [] && nodes[0].id != id {
      BeforeRename(doc, node, name, nodes[1..], id);
      assert RenameAll(doc, node, name, nodes)[1..] == RenameAll(doc, node, name, nodes[1..]);
    }
  }

  // No alias but those of `node` changes its source, and only `node` carries `name`.
  lemma {:induction false} LastOther(doc: Node, node: Id, name: string, nodes: seq<Node>, source: string)
    requires source != name
    requires forall i :: 0 <= i < |nodes| ==> AnchorOf(nodes[i]) != Some(name)
    requires LastAnchored(nodes, source).Some? ==> LastAnchored(nodes, source).value.id != node
    requires forall i, j ::
               0 <= i < |nodes| && nodes[i].id == node && AnchorOf(nodes[i]) == Some(source) && i < j < |nodes|
               ==> nodes[j].id != node
    ensures LastAnchored(RenameAll(doc, node, name, nodes), source)
         == if LastAnchored(nodes, source).Some? then Some(Rename(doc, node, name, LastAnchored(nodes, source).value))
            else None
  {
    if nodes != [] {
      var n := |nodes| - 1;
      assert RenameAll(doc, node, name, nodes)[..n] == RenameAll(doc, node, name, nodes[..n]);
      if AnchorOf(nodes[n]) != Some(source) {
        LastOther(doc, node, name, nodes[..n], source);
      }
    }
  }

  lemma {:induction false} LastRenamed(doc: Node, node: Id, name: string, nodes: seq<Node>, t: Node)
    requires t in nodes && t.id == node && !t.Alias?
    requires DistinctIds(nodes)
    requires forall i :: 0 <= i < |nodes| ==> AnchorOf(nodes[i]) != Some(name)
    ensures LastAnchored(RenameAll(doc, node, name, nodes), name) == Some(Rename(doc, node, name, t))
  {
    var n := |nodes| - 1;
    assert RenameAll(doc, node, name, nodes)[..n] == RenameAll(doc, node, name, nodes[..n]);
    if nodes[n].id != node {
      LastRenamed(doc, node, name, nodes[..n], t);
    }
  }

  // The guard setAnchor checks before it renames.
  ghost predicate NameIsFree(doc: Node, name: string) {
    forall n :: n in Flat(doc) ==> AnchorOf(n) != Some(name)
  }

  // An alias of the new name after the node: with no node carrying the name it stands for
  // nothing, and the renamed node would capture it.
  ghost predicate Captured(doc: Node, node: Node, name: string, a: Node) {
    a in Flat(doc) && a.Alias? && a.source == name && node in Before(Flat(doc), a.id)
  }

  lemma {:induction false} LastUntouched(doc: Node, node: Id, name: string, nodes: seq<Node>, source: string)
    requires forall i :: 0 <= i < |nodes| ==> nodes[i].id != node && AnchorOf(nodes[i]) != Some(source)
    ensures LastAnchored(RenameAll(doc, node, name, nodes), source) == None
  {
    if nodes != [] {
      var n := |nodes| - 1;
      assert RenameAll(doc, node, name, nodes)[..n] == RenameAll(doc, node, name, nodes[..n]);
      LastUntouched(doc, node, name, nodes[..n], source);
    }
  }

  // What alias `a` stands for after the renaming.
  ghost predicate KeepsTarget(doc: Node, node: Node, name: string, a: Node)
    requires a.Alias?
  {
    Target(Rename(doc, node.id, name, doc), Rename(doc, node.id, name, a)) ==
      if Target(doc, a).Some? then Some(Rename(doc, node.id, name, Target(doc, a).value)) else None
  }

  lemma SameIdSameNode(nodes: seq<Node>, m: Node, n: Node)
    requires DistinctIds(nodes) && m in nodes && n in nodes && m.id == n.id
    ensures m == n
  {
    var i :| 0 <= i < |nodes| && nodes[i] == m;
    var j :| 0 <= j < |nodes| && nodes[j] == n;
  }

  // Every alias stands for the node it stood for, renamed or not, unless it is captured.
  lemma RenameKeepsTarget(doc: Node, node: Node, name: string, a: Node)
    requires DistinctIds(Flat(doc)) && NameIsFree(doc, name)
    requires node in Flat(doc) && !node.Alias? && a in Flat(doc) && a.Alias? && !Captured(doc, node, name, a)
    ensures KeepsTarget(doc, node, name, a)
  {
    FlatRename(doc, node.id, name, doc);
    BeforeRename(doc, node.id, name, Flat(doc), a.id);
    var front := Before(Flat(doc), a.id);
    assert forall i :: 0 <= i < |front| ==> front[i] in Flat(doc);
    assert DistinctIds(front);
    if Targets(doc, a, node.id) {
      LastRenamed(doc, node.id, name, front, Target(doc, a).value);
    } else if a.source == name {
      forall i | 0 <= i < |front| ensures front[i].id != node.id {
        if front[i].id == node.id { SameIdSameNode(Flat(doc), front[i], node); assert false; }
      }
      LastUntouched(doc, node.id, name, front, name);
    } else {
      LastOther(doc, node.id, name, front, a.source);
    }
  }

  lemma CaptureChangesTarget(doc: Node, node: Node, name: string, a: Node)
    requires DistinctIds(Flat(doc)) && NameIsFree(doc, name)
    requires node in Flat(doc) && !node.Alias? && Captured(doc, node, name, a)
    ensures !KeepsTarget(doc, node, name, a)
  {
    assert Target(doc, a) == None;
    CaptiveFollowsNode(doc, node, name, a);
  }

  lemma CaptiveFollowsNode(doc: Node, node: Node, name: string, a: Node)
    requires DistinctIds(Flat(doc)) && NameIsFree(doc, name)
    requires node in Flat(doc) && !node.Alias? && Captured(doc, node, name, a) && Target(doc, a) == None
    ensures Target(Rename(doc, node.id, name, doc), Rename(doc, node.id, name, a))
            == Some(Rename(doc, node.id, name, node))
  {
    FlatRename(doc, node.id, name, doc);
    BeforeRename(doc, node.id, name, Flat(doc), a.id);
    RenamedIsLast(doc, node, name, Flat(doc), Before(Flat(doc), a.id));
  }

  lemma RenamedIsLast(doc: Node, node: Node, name: string, nodes: seq<Node>, front: seq<Node>)
    requires DistinctIds(nodes) && front <= nodes && node in front && !node.Alias?
    requires forall n :: n in nodes ==> AnchorOf(n) != Some(name)
    ensures LastAnchored(RenameAll(doc, node.id, name, front), name) == Some(Rename(doc, node.id, name, node))
  {
    assert forall i :: 0 <= i < |front| ==> front[i] == nodes[i] && front[i] in nodes;
    LastRenamed(doc, node.id, name, front, node);
  }

  // Renaming re-points exactly the node's own aliases, if and only if none is captured.
  lemma RenameIsExact(doc: Node, node: Node, name: string)
    requires DistinctIds(Flat(doc)) && NameIsFree(doc, name) && node in Flat(doc) && !node.Alias?
    ensures (forall a :: IsAlias(doc, a) ==> KeepsTarget(doc, node, name, a))
       <==> (forall a :: a in Flat(doc) ==> !Captured(doc, node, name, a))
  {
    forall a | IsAlias(doc, a) ensures KeepsTarget(doc, node, name, a) <==> !Captured(doc, node, name, a) {
      if Captured(doc, node, name, a) {
        CaptureChangesTarget(doc, node, name, a);
      } else {
        RenameKeepsTarget(doc, node, name, a);
      }
    }
  }

  lemma {:induction false} RenamedValue(doc: Node, node: Node, name: string, n: Node, depth: nat)
    requires DistinctIds(Flat(doc)) && NameIsFree(doc, name) && AllResolve(doc)
    requires node in Flat(doc) && !node.Alias? && n in Flat(doc)
    ensures Value(Rename(doc, node.id, name, doc), Rename(doc, node.id, name, n), depth) == Value(doc, n, depth)
    decreases depth, if n.Alias? then 1 else 0
  {
    match n {
      case Scalar(_, _, _) =>
      case Alias(_, _) =>
        assert IsAlias(doc, n);
        RenameKeepsTarget(doc, node, name, n);
        RenamedValue(doc, node, name, Target(doc, n).value, depth);
      case Collection(_, _, _, items) =>
        if depth > 0 {
          forall i | 0 <= i < |items|
            ensures Value(Rename(doc, node.id, name, doc), Rename(doc, node.id, name, items[i]), depth - 1)
                    == Value(doc, items[i], depth - 1)
          {
            ChildInFlat(doc, n, i);
            RenamedValue(doc, node, name, items[i], depth - 1);
          }
        }
    }
  }

  // setAnchor: a no-op, a refusal, or the renamed document.
  function SetAnchor(doc: Node, node: Node, name: string): (r: Option<Node>) {
    if AnchorOf(node) == Some(name) then Some(doc)
    else if LastAnchored(Flat(doc), name).Some? then None
    else Some(Rename(doc, node.id, name, doc))
  }

  // Setting an anchor never changes the document's data, whatever anchors are redefined and
  // even where an alias lies inside its own target; it is refused exactly when another node
  // carries the name.
  lemma SetAnchorKeepsData(doc: Node, node: Node, name: string)
    requires DistinctIds(Flat(doc)) && AllResolve(doc) && node in Flat(doc) && !node.Alias?
    ensures SetAnchor(doc, node, name).Some? ==> SameData(doc, SetAnchor(doc, node, name).value)
    ensures SetAnchor(doc, node, name).None? <==> AnchorOf(node) != Some(name) && !NameIsFree(doc, name)
  {
    if AnchorOf(node) != Some(name) && LastAnchored(Flat(doc), name).None? {
      forall depth: nat
        ensures Value(Rename(doc, node.id, name, doc), Rename(doc, node.id, name, doc), depth) == Value(doc, doc, depth)
      {
        RenamedValue(doc, node, name, doc, depth);
      }
    }
  }

  // ---------------------------------------------------------------- removeAnchor

  // A clone of `n` made for the alias `at`, every anchor stripped.
  function Copy(at: Id, n: Node): (r: Node)
    ensures AnchorOf(r) == None && r.id == Clone(n.id, at) && r.Alias? == n.Alias?
    decreases n
  {
    match n
    case Scalar(id, _, value) => Scalar(Clone(id, at), None, value)
    case Alias(id, source) => Alias(Clone(id, at), source)
    case Collection(id, _, kind, items) =>
      Collection(Clone(id, at), None, kind, seq(|items|, i requires 0 <= i < |items| => Copy(at, items[i])))
  }

  // The document with every alias of `node` replaced by a copy of it, and its anchor gone.
  function Expand(doc: Node, node: Node, n: Node): (r: Node)
    decreases n
  {
    match n
    case Scalar(id, anchor, value) => Scalar(id, if id == node.id then None else anchor, value)
    case Alias(id, source) => if Targets(doc, n, node.id) then Copy(id, node) else n
    case Collection(id, anchor, kind, items) =>
      Collection(id, if id == node.id then None else anchor, kind,
                 seq(|items|, i requires 0 <= i < |items| => Expand(doc, node, items[i])))
  }

  // What one node of the document becomes in the expanded document order.
  function Piece(doc: Node, node: Node, n: Node): seq<Node> {
    if Targets(doc, n, node.id) then Flat(Copy(n.id, node)) else [Expand(doc, node, n)]
  }

  function Pieces(doc: Node, node: Node, nodes: seq<Node>): seq<Node> {
    if nodes == [] then [] else Piece(doc, node, nodes[0]) + Pieces(doc, node, nodes[1..])
  }

  lemma {:induction false} PiecesAppend(doc: Node, node: Node, front: seq<Node>, back: seq<Node>)
    ensures Pieces(doc, node, front + back) == Pieces(doc, node, front) + Pieces(doc, node, back)
  {
    if front == [] {
      assert front + back == back;
    } else {
      assert (front + back)[1..] == front[1..] + back;
      PiecesAppend(doc, node, front[1..], back);
    }
  }

  lemma {:induction false} FlatExpand(doc: Node, node: Node, n: Node)
    ensures Flat(Expand(doc, node, n)) == Pieces(doc, node, Flat(n))
    decreases n, 1
  {
    if n.Collection? {
      FlatAllExpand(doc, node, n.items);
      assert Flat(n)[1..] == FlatAll(n.items);
      assert Expand(doc, node, n).items == ExpandAll(doc, node, n.items);
    } else {
      assert Flat(n)[1..] == [];
    }
  }

  function ExpandAll(doc: Node, node: Node, items: seq<Node>): (r: seq<Node>)
    ensures |r| == |items|
  {
    seq(|items|, i requires 0 <= i < |items| => Expand(doc, node, items[i]))
  }

  lemma {:induction false} FlatAllExpand(doc: Node, node: Node, items: seq<Node>)
    ensures FlatAll(ExpandAll(doc, node, items)) == Pieces(doc, node, FlatAll(items))
    decreases items, 0
  {
    if items != [] {
      FlatExpand(doc, node, items[0]);
      FlatAllExpand(doc, node, items[1..]);
      assert ExpandAll(doc, node, items)[1..] == ExpandAll(doc, node, items[1..]);
      PiecesAppend(doc, node, Flat(items[0]), FlatAll(items[1..]));
    }
  }

  lemma {:induction false} PieceMember(doc: Node, node: Node, nodes: seq<Node>, m: Node)
    ensures m in Pieces(doc, node, nodes) <==> exists n :: n in nodes && m in Piece(doc, node, n)
  {
    if nodes != [] {
      PieceMember(doc, node, nodes[1..], m);
      if m in Pieces(doc, node, nodes) && m !in Piece(doc, node, nodes[0]) {
        var n :| n in nodes[1..] && m in Piece(doc, node, n);
        assert n in nodes;
      }
      if n :| n in nodes && m in Piece(doc, node, n) {
        if n != nodes[0] { assert n in nodes[1..]; }
      }
    }
  }

  lemma {:induction false} CopiedNodes(at: Id, n: Node, m: Node)
    requires m in Flat(Copy(at, n))
    ensures exists o :: o in Flat(n) && m == Copy(at, o)
    decreases n, 1
  {
    if n.Collection? && m != Copy(at, n) {
      var r := Copy(at, n);
      FlatAllMember(r.items, m);
      var i :| 0 <= i < |r.items| && m in Flat(r.items[i]);
      CopiedNodes(at, n.items[i], m);
      var o :| o in Flat(n.items[i]) && m == Copy(at, o);
      FlatAllMember(n.items, o);
    } else {
      assert n in Flat(n);
    }
  }

  // Clones made for an alias are new objects: no node of the document is one yet.
  ghost predicate NoCloneOf(doc: Node, a: Node) {
    forall m :: m in Flat(doc) && m.id.Clone? ==> m.id.at != a.id
  }

  // No alias of the node lies inside it.
  ghost predicate NotInItself(doc: Node, node: Node) {
    forall b :: b in Flat(node) ==> !Targets(doc, b, node.id)
  }

  // What removing an anchor relies on: every alias resolves, and no alias of the node lies
  // inside it.
  ghost predicate Removable(doc: Node, node: Node) {
    && DistinctIds(Flat(doc)) && AllResolve(doc)
    && node in Flat(doc) && !node.Alias? && NotInItself(doc, node)
    && (forall a :: IsAlias(doc, a) ==> NoCloneOf(doc, a))
  }

  // At position `p`, the name alias `b` uses still stands for `b`'s own target.
  ghost predicate StillMeant(doc: Node, p: nat, b: Node)
    requires b.Alias?
  {
    p < |Flat(doc)| && LastAnchored(Flat(doc)[..p], b.source) == Target(doc, b)
  }

  // The node's alias at position `p` will be replaced by a copy that holds a clone of alias `b`.
  ghost predicate Copied(doc: Node, node: Node, p: nat, b: Node) {
    p < |Flat(doc)| && Targets(doc, Flat(doc)[p], node.id) && b in Flat(node) && b.Alias?
  }

  // Wherever a copy of the node will stand, the names used inside it mean what they mean in it.
  ghost predicate NothingRedefined(doc: Node, node: Node) {
    forall p: nat, b :: Copied(doc, node, p, b) ==> StillMeant(doc, p, b)
  }

  lemma {:induction false} BeforeSkips(front: seq<Node>, back: seq<Node>, id: Id)
    requires forall i :: 0 <= i < |front| ==> front[i].id != id
    ensures Before(front + back, id) == front + Before(back, id)
  {
    if front == [] {
      assert front + back == back;
    } else {
      assert (front + back)[1..] == front[1..] + back;
      BeforeSkips(front[1..], back, id);
    }
  }

  lemma PieceIds(doc: Node, node: Node, n: Node, m: Node)
    requires m in Piece(doc, node, n)
    ensures if Targets(doc, n, node.id) then m.id.Clone? && m.id.at == n.id && AnchorOf(m) == None
            else m == Expand(doc, node, n) && m.id == n.id
  {
    if Targets(doc, n, node.id) {
      CopiedNodes(n.id, node, m);
    }
  }

  lemma PiecesApart(doc: Node, node: Node, n: Node, m: Node, n': Node, m': Node)
    requires n in Flat(doc) && n' in Flat(doc) && n.id != n'.id && m in Piece(doc, node, n)
             && m' in Piece(doc, node, n')
    requires n.Alias? ==> NoCloneOf(doc, n)
    requires n'.Alias? ==> NoCloneOf(doc, n')
    ensures m.id != m'.id
  {
    PieceIds(doc, node, n, m);
    PieceIds(doc, node, n', m');
  }

  // A node of an earlier piece is none of a later one.
  lemma EarlierPieceApart(doc: Node, node: Node, p: nat, m: Node, m': Node)
    requires DistinctIds(Flat(doc)) && forall a :: IsAlias(doc, a) ==> NoCloneOf(doc, a)
    requires p < |Flat(doc)| && m in Piece(doc, node, Flat(doc)[p]) && m' in Pieces(doc, node, Flat(doc)[..p])
    ensures m'.id != m.id
  {
    var flat := Flat(doc);
    PieceMember(doc, node, flat[..p], m');
    var n :| n in flat[..p] && m' in Piece(doc, node, n);
    var q :| 0 <= q < p && flat[q] == n;
    assert flat[q].id != flat[p].id;
    assert n.Alias? ==> IsAlias(doc, n);
    assert flat[p].Alias? ==> IsAlias(doc, flat[p]);
    PiecesApart(doc, node, n, m', flat[p], m);
  }

  lemma ExpandedSplit(doc: Node, node: Node, p: nat)
    requires p <= |Flat(doc)|
    ensures Flat(Expand(doc, node, doc)) == Pieces(doc, node, Flat(doc)[..p]) + Pieces(doc, node, Flat(doc)[p..])
  {
    FlatExpand(doc, node, doc);
    assert Flat(doc) == Flat(doc)[..p] + Flat(doc)[p..];
    PiecesAppend(doc, node, Flat(doc)[..p], Flat(doc)[p..]);
  }

  lemma LastSkipsBare(front: seq<Node>, back: seq<Node>, name: string)
    requires forall i :: 0 <= i < |back| ==> AnchorOf(back[i]) != Some(name)
    ensures LastAnchored(front + back, name) == LastAnchored(front, name)
    decreases |back|
  {
    if back == [] {
      assert front + back == front;
    } else {
      assert (front + back)[..|front + back| - 1] == front + back[..|back| - 1];
      LastSkipsBare(front, back[..|back| - 1], name);
    }
  }

  lemma CopyIsBare(at: Id, n: Node)
    ensures forall i :: 0 <= i < |Flat(Copy(at, n))| ==> AnchorOf(Flat(Copy(at, n))[i]) == None
  {
    forall i | 0 <= i < |Flat(Copy(at, n))| ensures AnchorOf(Flat(Copy(at, n))[i]) == None {
      CopiedNodes(at, n, Flat(Copy(at, n))[i]);
    }
  }

  // The pieces of a stretch carry the names the stretch carries, but for the node's own.
  lemma {:induction false} LastInPieces(doc: Node, node: Node, nodes: seq<Node>, name: string)
    requires LastAnchored(nodes, name).Some? ==> LastAnchored(nodes, name).value.id != node.id
    ensures LastAnchored(Pieces(doc, node, nodes), name) ==
            if LastAnchored(nodes, name).Some? then Some(Expand(doc, node, LastAnchored(nodes, name).value)) else None
    decreases |nodes|
  {
    if nodes != [] {
      var k := |nodes| - 1;
      var front, n := nodes[..k], nodes[k];
      PiecesSnoc(doc, node, nodes);
      LastPiece(doc, node, Pieces(doc, node, front), n, name);
      if AnchorOf(n) != Some(name) { LastInPieces(doc, node, front, name); }
    }
  }

  lemma PiecesSnoc(doc: Node, node: Node, nodes: seq<Node>)
    requires nodes != []
    ensures Pieces(doc, node, nodes) == Pieces(doc, node, nodes[..|nodes| - 1]) + Piece(doc, node, nodes[|nodes| - 1])
  {
    var front, n := nodes[..|nodes| - 1], nodes[|nodes| - 1];
    assert nodes == front + [n];
    PiecesAppend(doc, node, front, [n]);
    assert [n][1..] == [] && Pieces(doc, node, [n]) == Piece(doc, node, n) + [];
  }

  lemma LastPiece(doc: Node, node: Node, front: seq<Node>, n: Node, name: string)
    requires AnchorOf(n) == Some(name) ==> n.id != node.id
    ensures LastAnchored(front + Piece(doc, node, n), name) ==
            if AnchorOf(n) == Some(name) then Some(Expand(doc, node, n)) else LastAnchored(front, name)
  {
    if Targets(doc, n, node.id) {
      CopyIsBare(n.id, node);
      LastSkipsBare(front, Piece(doc, node, n), name);
    } else {
      var all := front + [Expand(doc, node, n)];
      assert all[..|all| - 1] == front;
    }
  }

  lemma {:induction false} BeforeInside(front: seq<Node>, back: seq<Node>, c: Node)
    requires c in front
    ensures Before(front + back, c.id) == Before(front, c.id)
  {
    assert (front + back)[0] == front[0] && (front + back)[1..] == front[1..] + back;
    if front[0].id != c.id { BeforeInside(front[1..], back, c); }
  }

  // What stands before an alias of the expanded document: the earlier pieces, and of its own
  // piece nothing that carries a name.
  lemma NamesBefore(doc: Node, node: Node, p: nat, c: Node, name: string)
    requires DistinctIds(Flat(doc)) && forall a :: IsAlias(doc, a) ==> NoCloneOf(doc, a)
    requires p < |Flat(doc)| && c in Piece(doc, node, Flat(doc)[p]) && c.Alias?
    ensures LastAnchored(Before(Flat(Expand(doc, node, doc)), c.id), name)
            == LastAnchored(Pieces(doc, node, Flat(doc)[..p]), name)
  {
    var flat, n := Flat(doc), Flat(doc)[p];
    var front, piece, rest := Pieces(doc, node, flat[..p]), Piece(doc, node, n), Pieces(doc, node, flat[p + 1..]);
    forall i | 0 <= i < |front| ensures front[i].id != c.id { EarlierPieceApart(doc, node, p, c, front[i]); }
    ExpandedSplit(doc, node, p);
    assert flat[p..][0] == n && flat[p..][1..] == flat[p + 1..];
    BeforeSkips(front, piece + rest, c.id);
    BeforeInside(piece, rest, c);
    if Targets(doc, n, node.id) {
      CopyIsBare(n.id, node);
    } else {
      assert Before(piece, c.id) == [];
    }
    LastSkipsBare(front, Before(piece, c.id), name);
  }

  // An alias in a later piece finds what its name stood for at that place.
  lemma TargetAfterExpand(doc: Node, node: Node, p: nat, c: Node, u: Node)
    requires Removable(doc, node) && p < |Flat(doc)| && c in Piece(doc, node, Flat(doc)[p]) && c.Alias?
    requires LastAnchored(Flat(doc)[..p], c.source) == Some(u) && u.id != node.id
    ensures Target(Expand(doc, node, doc), c) == Some(Expand(doc, node, u))
  {
    NamesBefore(doc, node, p, c, c.source);
    LastInPieces(doc, node, Flat(doc)[..p], c.source);
  }

  // Where an alias of the node stands: after the node's whole subtree.
  lemma SubtreeBeforeAlias(doc: Node, node: Node, p: nat, front: seq<Node>, back: seq<Node>)
    requires DistinctIds(Flat(doc)) && NotInItself(doc, node)
    requires Flat(doc) == front + Flat(node) + back
    requires p < |Flat(doc)| && Targets(doc, Flat(doc)[p], node.id)
    ensures |front| + |Flat(node)| <= p
  {
    var flat, sub := Flat(doc), Flat(node);
    BeforeIsPrefix(flat, p);
    var t := Target(doc, flat[p]).value;
    var q :| 0 <= q < p && flat[q] == t;
    assert flat[|front|] == node;
    assert q == |front|;
    if p < |front| + |sub| {
      AliasInItself(doc, node, p, front, back);
      assert false;
    }
  }

  lemma AliasInItself(doc: Node, node: Node, p: nat, front: seq<Node>, back: seq<Node>)
    requires Flat(doc) == front + Flat(node) + back && |front| <= p < |front| + |Flat(node)|
    requires Targets(doc, Flat(doc)[p], node.id)
    ensures !NotInItself(doc, node)
  {
    assert Flat(doc)[p] == Flat(node)[p - |front|];
    assert Flat(doc)[p] in Flat(node);
  }

  // Where the node and an alias inside it stand, before any alias of the node.
  lemma InsidePlace(doc: Node, node: Node, p: nat, b: Node) returns (q: nat, j: nat)
    requires DistinctIds(Flat(doc)) && NotInItself(doc, node) && node in Flat(doc) && Copied(doc, node, p, b)
             && !node.Alias?
    ensures q < j < p < |Flat(doc)| && Flat(doc)[q] == node && Flat(doc)[j] == b
  {
    var front, back := Subtree(doc, node);
    SubtreeBeforeAlias(doc, node, p, front, back);
    q := |front|;
    j := PlaceIn(front, Flat(node), back, node, b);
  }

  lemma PlaceIn(front: seq<Node>, mid: seq<Node>, back: seq<Node>, first: Node, b: Node) returns (j: nat)
    requires mid != [] && mid[0] == first && b in mid && b != first
    ensures |front| < j < |front| + |mid| && (front + mid + back)[|front|] == first && (front + mid + back)[j] == b
  {
    var i :| 0 <= i < |mid| && mid[i] == b;
    j := |front| + i;
  }

  lemma AliasFollowsSubtree(doc: Node, node: Node, p: nat, b: Node)
    requires DistinctIds(Flat(doc)) && AllResolve(doc) && NotInItself(doc, node) && node in Flat(doc) && !node.Alias?
    requires Copied(doc, node, p, b)
    ensures Target(doc, b).Some? && Target(doc, b).value in Flat(doc)[..p] && Target(doc, b).value.id != node.id
  {
    var q, j := InsidePlace(doc, node, p, b);
    AliasResolves(doc, b, j);
    assert !Targets(doc, b, node.id);
    TargetInPrefix(doc, j, p);
  }

  lemma AliasResolves(doc: Node, b: Node, j: nat)
    requires AllResolve(doc) && j < |Flat(doc)| && Flat(doc)[j] == b && b.Alias?
    ensures Target(doc, b).Some?
  {
    assert IsAlias(doc, b);
  }

  lemma TargetInPrefix(doc: Node, j: nat, p: nat)
    requires DistinctIds(Flat(doc)) && j <= p < |Flat(doc)| && Flat(doc)[j].Alias? && Target(doc, Flat(doc)[j]).Some?
    ensures Target(doc, Flat(doc)[j]).value in Flat(doc)[..p]
  {
    BeforeIsPrefix(Flat(doc), j);
    var u := Target(doc, Flat(doc)[j]).value;
    var k :| 0 <= k < j && Flat(doc)[k] == u;
    assert Flat(doc)[..p][k] == u;
  }

  // ---- the targets, exactly

  ghost predicate ExpandKeepsTarget(doc: Node, node: Node, c: Node, b: Node)
    requires c.Alias? && b.Alias?
  {
    Target(doc, b).Some? && Target(Expand(doc, node, doc), c) == Some(Expand(doc, node, Target(doc, b).value))
  }

  // An alias that is not replaced stands for the node it stood for.
  lemma OtherAliasKeepsTarget(doc: Node, node: Node, b: Node)
    requires Removable(doc, node) && IsAlias(doc, b) && !Targets(doc, b, node.id)
    ensures ExpandKeepsTarget(doc, node, b, b)
  {
    var p :| 0 <= p < |Flat(doc)| && Flat(doc)[p] == b;
    BeforeIsPrefix(Flat(doc), p);
    assert b in Piece(doc, node, b);
    TargetAfterExpand(doc, node, p, b, Target(doc, b).value);
  }

  // Whatever the last carrier in a longer stretch is, it is the last one in the stretch behind it.
  lemma {:induction false} LastStays(nodes: seq<Node>, q: nat, j: nat, p: nat, name: string)
    requires DistinctIds(nodes) && q < j <= p <= |nodes| && LastAnchored(nodes[..p], name) == Some(nodes[q])
    ensures LastAnchored(nodes[..j], name) == Some(nodes[q])
    decreases p
  {
    if j < p {
      assert nodes[..p][..p - 1] == nodes[..p - 1];
      assert AnchorOf(nodes[p - 1]) != Some(name) by { assert nodes[q].id != nodes[p - 1].id; }
      LastStays(nodes, q, j, p - 1, name);
    }
  }

  // Where an alias of the node stands, no name used inside the node means the node itself.
  lemma NotTheNode(doc: Node, node: Node, p: nat, b: Node)
    requires Removable(doc, node) && Copied(doc, node, p, b)
    ensures LastAnchored(Flat(doc)[..p], b.source) != Some(node)
  {
    if LastAnchored(Flat(doc)[..p], b.source) == Some(node) {
      MeantInside(doc, node, p, b);
      assert false;
    }
  }

  lemma MeantInside(doc: Node, node: Node, p: nat, b: Node)
    requires DistinctIds(Flat(doc)) && NotInItself(doc, node) && node in Flat(doc) && !node.Alias?
             && Copied(doc, node, p, b)
    requires LastAnchored(Flat(doc)[..p], b.source) == Some(node)
    ensures Targets(doc, b, node.id)
  {
    var q, j := InsidePlace(doc, node, p, b);
    MeantAt(Flat(doc), q, j, p, b);
  }

  lemma MeantAt(nodes: seq<Node>, q: nat, j: nat, p: nat, b: Node)
    requires DistinctIds(nodes) && q < j < p <= |nodes| && nodes[j] == b && b.Alias?
    requires LastAnchored(nodes[..p], b.source) == Some(nodes[q])
    ensures LastAnchored(Before(nodes, b.id), b.source) == Some(nodes[q])
  {
    LastStays(nodes, q, j, p, b.source);
    BeforeIsPrefix(nodes, j);
  }

  // Some carrier of the name stands before the alias of the node, and it is not the node.
  lemma MeantBefore(doc: Node, node: Node, p: nat, b: Node)
    requires Removable(doc, node) && Copied(doc, node, p, b)
    ensures Target(doc, b).Some? && LastAnchored(Flat(doc)[..p], b.source).Some?
    ensures LastAnchored(Flat(doc)[..p], b.source).value in Flat(doc)
    ensures LastAnchored(Flat(doc)[..p], b.source).value.id != node.id
  {
    var front := Flat(doc)[..p];
    AliasFollowsSubtree(doc, node, p, b);
    var k :| 0 <= k < p && front[k] == Target(doc, b).value;
    assert AnchorOf(front[k]) == Some(b.source);
    var u := LastAnchored(front, b.source).value;
    assert u in front && u in Flat(doc);
    NotTheNode(doc, node, p, b);
    if u.id == node.id { SameIdSameNode(Flat(doc), u, node); }
  }

  // The clone of an alias inside a copy stands for what the alias stood for if and only if the
  // name still means that where the copy stands.
  lemma CopyKeepsTarget(doc: Node, node: Node, p: nat, b: Node)
    requires Removable(doc, node) && Copied(doc, node, p, b)
    ensures ExpandKeepsTarget(doc, node, Copy(Flat(doc)[p].id, b), b) <==> StillMeant(doc, p, b)
  {
    var c := Copy(Flat(doc)[p].id, b);
    MeantBefore(doc, node, p, b);
    CopyInPiece(Flat(doc)[p].id, node, b);
    var t, u := Target(doc, b).value, LastAnchored(Flat(doc)[..p], b.source).value;
    TargetAfterExpand(doc, node, p, c, u);
    CarrierKeepsId(doc, node, u);
    CarrierKeepsId(doc, node, t);
    if u.id == t.id { SameIdSameNode(Flat(doc), u, t); }
  }

  lemma CarrierKeepsId(doc: Node, node: Node, n: Node)
    requires !n.Alias?
    ensures Expand(doc, node, n).id == n.id
  {
  }

  ghost predicate CopiesKeepTargets(doc: Node, node: Node) {
    forall p: nat, b :: Copied(doc, node, p, b) ==> ExpandKeepsTarget(doc, node, Copy(Flat(doc)[p].id, b), b)
  }

  // Removing an anchor keeps every target, of the aliases that stay and of the aliases copied,
  // if and only if no name used inside the node is redefined before one of its aliases.
  lemma RemoveAnchorIsExact(doc: Node, node: Node)
    requires Removable(doc, node)
    ensures forall b :: IsAlias(doc, b) && !Targets(doc, b, node.id) ==> ExpandKeepsTarget(doc, node, b, b)
    ensures CopiesKeepTargets(doc, node) <==> NothingRedefined(doc, node)
  {
    forall b | IsAlias(doc, b) && !Targets(doc, b, node.id) ensures ExpandKeepsTarget(doc, node, b, b) {
      OtherAliasKeepsTarget(doc, node, b);
    }
    if NothingRedefined(doc, node) {
      forall p: nat, b | Copied(doc, node, p, b) ensures ExpandKeepsTarget(doc, node, Copy(Flat(doc)[p].id, b), b) {
        assert StillMeant(doc, p, b);
        CopyKeepsTarget(doc, node, p, b);
      }
    }
    if CopiesKeepTargets(doc, node) {
      forall p: nat, b | Copied(doc, node, p, b) ensures StillMeant(doc, p, b) {
        assert ExpandKeepsTarget(doc, node, Copy(Flat(doc)[p].id, b), b);
        CopyKeepsTarget(doc, node, p, b);
      }
    }
  }

  lemma {:induction false} ExpandedValue(doc: Node, node: Node, n: Node, depth: nat)
    requires Removable(doc, node) && NothingRedefined(doc, node) && n in Flat(doc)
    ensures Value(Expand(doc, node, doc), Expand(doc, node, n), depth) == Value(doc, n, depth)
    decreases depth, if n.Alias? then 1 else 0, 1
  {
    match n {
      case Scalar(_, _, _) =>
      case Alias(_, _) => ExpandedAlias(doc, node, n, depth);
      case Collection(_, _, _, _) => if depth > 0 { ExpandedItems(doc, node, n, depth); }
    }
  }

  lemma {:induction false} ExpandedItems(doc: Node, node: Node, n: Node, depth: nat)
    requires Removable(doc, node) && NothingRedefined(doc, node) && n in Flat(doc) && n.Collection? && depth > 0
    ensures Value(Expand(doc, node, doc), Expand(doc, node, n), depth) == Value(doc, n, depth)
    decreases depth, 0, 0
  {
    var n' := Expand(doc, node, n);
    forall i: nat | i < |n.items| ensures ItemAlike(doc, n, Expand(doc, node, doc), n', depth, i) {
      ExpandedItem(doc, node, n, i, depth - 1);
    }
    SameItemsSameData(doc, n, Expand(doc, node, doc), n', depth);
  }

  lemma {:induction false} ExpandedItem(doc: Node, node: Node, n: Node, i: nat, depth: nat)
    requires Removable(doc, node) && NothingRedefined(doc, node) && n in Flat(doc) && n.Collection? && i < |n.items|
    ensures ItemAlike(doc, n, Expand(doc, node, doc), Expand(doc, node, n), depth + 1, i)
    decreases depth, 2, 0
  {
    ChildInFlat(doc, n, i);
    ExpandedValue(doc, node, n.items[i], depth);
  }

  lemma {:induction false} ExpandedAlias(doc: Node, node: Node, n: Node, depth: nat)
    requires Removable(doc, node) && NothingRedefined(doc, node) && n in Flat(doc) && n.Alias?
    ensures Value(Expand(doc, node, doc), Expand(doc, node, n), depth) == Value(doc, n, depth)
    decreases depth, 1, 0
  {
    var p :| 0 <= p < |Flat(doc)| && Flat(doc)[p] == n;
    BeforeIsPrefix(Flat(doc), p);
    assert IsAlias(doc, n);
    var u := Target(doc, n).value;
    if Targets(doc, n, node.id) {
      SameIdSameNode(Flat(doc), u, node);
      CopiedValue(doc, node, p, node, depth);
    } else {
      OtherAliasKeepsTarget(doc, node, n);
      ExpandedValue(doc, node, u, depth);
    }
  }

  // Every node of a copy has the data of the node it was copied from.
  lemma {:induction false} CopiedValue(doc: Node, node: Node, p: nat, m: Node, depth: nat)
    requires Removable(doc, node) && NothingRedefined(doc, node) && p < |Flat(doc)|
             && Targets(doc, Flat(doc)[p], node.id) && m in Flat(node)
    ensures Value(Expand(doc, node, doc), Copy(Flat(doc)[p].id, m), depth) == Value(doc, m, depth)
    decreases depth, if m.Alias? then 1 else 0, 1
  {
    match m {
      case Scalar(_, _, _) =>
      case Alias(_, _) => CopiedAlias(doc, node, p, m, depth);
      case Collection(_, _, _, _) => if depth > 0 { CopiedItems(doc, node, p, m, depth); }
    }
  }

  lemma {:induction false} CopiedAlias(doc: Node, node: Node, p: nat, m: Node, depth: nat)
    requires Removable(doc, node) && NothingRedefined(doc, node) && Copied(doc, node, p, m)
    ensures Value(Expand(doc, node, doc), Copy(Flat(doc)[p].id, m), depth) == Value(doc, m, depth)
    decreases depth, 1, 0
  {
    assert StillMeant(doc, p, m);
    CopyKeepsTarget(doc, node, p, m);
    ExpandedValue(doc, node, Target(doc, m).value, depth);
  }

  lemma {:induction false} CopiedItems(doc: Node, node: Node, p: nat, m: Node, depth: nat)
    requires Removable(doc, node) && NothingRedefined(doc, node) && p < |Flat(doc)|
             && Targets(doc, Flat(doc)[p], node.id) && m in Flat(node)
    requires m.Collection? && depth > 0
    ensures Value(Expand(doc, node, doc), Copy(Flat(doc)[p].id, m), depth) == Value(doc, m, depth)
    decreases depth, 0, 0
  {
    var doc', m' := Expand(doc, node, doc), Copy(Flat(doc)[p].id, m);
    forall i: nat | i < |m.items| ensures ItemAlike(doc, m, doc', m', depth, i) {
      CopiedItem(doc, node, p, m, i, depth - 1);
    }
    SameItemsSameData(doc, m, doc', m', depth);
  }

  lemma {:induction false} CopiedItem(doc: Node, node: Node, p: nat, m: Node, i: nat, depth: nat)
    requires Removable(doc, node) && NothingRedefined(doc, node) && p < |Flat(doc)|
             && Targets(doc, Flat(doc)[p], node.id) && m in Flat(node)
    requires m.Collection? && i < |m.items|
    ensures ItemAlike(doc, m, Expand(doc, node, doc), Copy(Flat(doc)[p].id, m), depth + 1, i)
    decreases depth, 2, 0
  {
    ChildInFlat(node, m, i);
    CopiedValue(doc, node, p, m.items[i], depth);
  }

  lemma {:induction false} CopyInPiece(at: Id, n: Node, m: Node)
    requires m in Flat(n)
    ensures Copy(at, m) in Flat(Copy(at, n))
    decreases n, 1
  {
    if m != n {
      FlatAllMember(n.items, m);
      var i :| 0 <= i < |n.items| && m in Flat(n.items[i]);
      CopyInPiece(at, n.items[i], m);
      FlatAllMember(Copy(at, n).items, Copy(at, m));
      assert Copy(at, n).items[i] == Copy(at, n.items[i]);
    }
  }

  // removeAnchor: the anchor goes, every alias of it becomes a copy.
  function RemoveAnchor(doc: Node, node: Node): Node {
    if AnchorOf(node) == None then doc else Expand(doc, node, doc)
  }

  // Removing an anchor leaves the document's data unchanged, unless a name used inside the node
  // is redefined before one of its aliases.
  lemma RemoveAnchorKeepsData(doc: Node, node: Node)
    requires Removable(doc, node) && NothingRedefined(doc, node)
    ensures SameData(doc, RemoveAnchor(doc, node))
  {
    forall depth: nat ensures Value(Expand(doc, node, doc), Expand(doc, node, doc), depth) == Value(doc, doc, depth) {
      ExpandedValue(doc, node, doc, depth);
    }
  }

  // Where no name is redefined at all, nothing is either.
  lemma UniqueAnchorsRedefineNothing(doc: Node, node: Node)
    requires Removable(doc, node) && UniqueAnchors(doc)
    ensures NothingRedefined(doc, node)
  {
    forall p: nat, b | Copied(doc, node, p, b) ensures StillMeant(doc, p, b) {
      MeantBefore(doc, node, p, b);
      assert Carrier(doc, LastAnchored(Flat(doc)[..p], b.source).value) && Carrier(doc, Target(doc, b).value);
    }
  }

  // ... and then no carrier of the removed name and no alias of it is left.
  lemma RemoveAnchorRemoves(doc: Node, node: Node)
    requires Removable(doc, node) && UniqueAnchors(doc) && AnchorOf(node).Some?
    ensures forall m :: m in Flat(RemoveAnchor(doc, node)) ==>
              AnchorOf(m) != AnchorOf(node) && (m.Alias? ==> m.source != AnchorOf(node).value)
  {
    FlatExpand(doc, node, doc);
    forall m | m in Flat(RemoveAnchor(doc, node))
      ensures AnchorOf(m) != AnchorOf(node) && (m.Alias? ==> m.source != AnchorOf(node).value)
    {
      PieceMember(doc, node, Flat(doc), m);
      var n :| n in Flat(doc) && m in Piece(doc, node, n);
      PieceIds(doc, node, n, m);
      if Targets(doc, n, node.id) {
        CopiedNodes(n.id, node, m);
        var o :| o in Flat(node) && m == Copy(n.id, o);
        var front, back := Subtree(doc, node);
        if o.Alias? { AliasOfAnother(doc, node, o); }
      } else if n.Alias? {
        AliasOfAnother(doc, node, n);
      } else {
        assert AnchorOf(n) == AnchorOf(node) ==> Carrier(doc, n) && Carrier(doc, node);
      }
    }
  }

  // An alias that does not stand for the node uses another name.
  lemma AliasOfAnother(doc: Node, node: Node, o: Node)
    requires UniqueAnchors(doc) && AllResolve(doc) && node in Flat(doc) && AnchorOf(node).Some?
    requires o in Flat(doc) && o.Alias? && !Targets(doc, o, node.id)
    ensures o.source != AnchorOf(node).value
  {
    assert IsAlias(doc, o);
    var u := Target(doc, o).value;
    assert Carrier(doc, u) && Carrier(doc, node);
  }

  // ---- the premises are needed

  const One := Scalar(Original(1), Some("x"), "1")
  const Ref := Alias(Original(3), "x")
  const Inner := Collection(Original(2), Some("a"), Sequence, [Ref])
  const Two := Scalar(Original(4), Some("x"), "2")
  const Last := Alias(Original(5), "a")
  const Redefining := Collection(Original(0), None, Sequence, [One, Inner, Two, Last])
  const CopiedRef := Alias(Clone(Original(3), Original(5)), "x")
  const CopiedInner := Collection(Clone(Original(2), Original(5)), None, Sequence, [CopiedRef])
  const Bare := Collection(Original(2), None, Sequence, [Ref])
  const Captured2 := Collection(Original(0), None, Sequence, [One, Bare, Two, CopiedInner])

  lemma FlatOne(n: Node)
    ensures FlatAll([n]) == Flat(n)
  {
    assert [n][1..] == [];
    assert FlatAll([n]) == Flat(n) + FlatAll([]);
  }

  lemma FlatFour(a: Node, b: Node, c: Node, e: Node)
    ensures FlatAll([a, b, c, e]) == Flat(a) + Flat(b) + Flat(c) + Flat(e)
  {
    FlatOne(a);
    FlatOne(b);
    FlatOne(c);
    FlatOne(e);
    FlatAllAppend([a], [b]);
    FlatAllAppend([a] + [b], [c]);
    FlatAllAppend([a] + [b] + [c], [e]);
    assert [a] + [b] + [c] + [e] == [a, b, c, e];
  }

  lemma {:induction false} LastOf(front: seq<Node>, n: Node, back: seq<Node>, name: string)
    requires AnchorOf(n) == Some(name) && forall i :: 0 <= i < |back| ==> AnchorOf(back[i]) != Some(name)
    ensures LastAnchored(front + [n] + back, name) == Some(n)
    decreases |back|
  {
    var all := front + [n] + back;
    if back == [] {
      assert all[|all| - 1] == n;
    } else {
      assert all[..|all| - 1] == front + [n] + back[..|back| - 1];
      LastOf(front, n, back[..|back| - 1], name);
    }
  }

  lemma RedefiningFlat()
    ensures Flat(Redefining) == [Redefining, One, Inner, Ref, Two, Last] && DistinctIds(Flat(Redefining))
  {
    FlatOne(Ref);
    FlatFour(One, Inner, Two, Last);
  }

  lemma RedefiningTargets()
    ensures Target(Redefining, Ref) == Some(One) && Target(Redefining, Last) == Some(Inner)
  {
    RedefiningFlat();
    var flat := Flat(Redefining);
    BeforeIsPrefix(flat, 3);
    BeforeIsPrefix(flat, 5);
    assert flat[..3] == [Redefining] + [One] + [Inner] && flat[..5] == [Redefining, One] + [Inner] + [Ref, Two];
    LastOf([Redefining], One, [Inner], "x");
    LastOf([Redefining, One], Inner, [Ref, Two], "a");
  }

  lemma RedefiningExpands()
    ensures RemoveAnchor(Redefining, Inner) == Captured2
  {
    RedefiningTargets();
    assert Expand(Redefining, Inner, Inner).items == [Ref];
    assert Copy(Original(5), Inner).items == [CopiedRef];
    assert Expand(Redefining, Inner, Redefining).items == [One, Bare, Two, CopiedInner];
  }

  lemma CapturedTarget()
    ensures Target(Captured2, CopiedRef) == Some(Two)
  {
    FlatOne(Ref);
    FlatOne(CopiedRef);
    FlatFour(One, Bare, Two, CopiedInner);
    var flat := [Captured2, One, Bare, Ref, Two, CopiedInner, CopiedRef];
    assert Flat(Captured2) == flat;
    BeforeIsPrefix(flat, 6);
    assert flat[..6] == [Captured2, One, Bare, Ref] + [Two] + [CopiedInner];
    LastOf([Captured2, One, Bare, Ref], Two, [CopiedInner], "x");
  }

  // With a redefined name a copy can be captured: in [&x 1, &a [*x], &x 2, *a] the copy that
  // replaces *a reads the second x.
  lemma RedefinedNameCapturesTheCopy()
    ensures DistinctIds(Flat(Redefining)) && Target(Redefining, Ref).Some? && Target(Redefining, Last).Some?
    ensures !SameData(Redefining, RemoveAnchor(Redefining, Inner))
  {
    RedefiningFlat();
    RedefiningTargets();
    RedefiningExpands();
    CapturedTarget();
    assert Value(Captured2, CopiedInner, 1).items[0] == Value(Captured2, CopiedRef, 0) == Atom("2");
    assert Value(Redefining, Inner, 1).items[0] == Value(Redefining, Ref, 0) == Atom("1");
    assert Value(Captured2, Captured2, 2).items[3] == Value(Captured2, CopiedInner, 1);
    assert Value(Redefining, Redefining, 2).items[3] == Value(Redefining, Last, 1);
  }

  const Inside := Alias(Original(2), "a")
  const Loop := Collection(Original(1), Some("a"), Sequence, [Inside])
  const SelfHolding := Collection(Original(0), None, Sequence, [Loop])
  const LooseRef := Alias(Clone(Original(2), Original(2)), "a")
  const LooseCopy := Collection(Clone(Original(1), Original(2)), None, Sequence, [LooseRef])
  const Unlooped := Collection(Original(1), None, Sequence, [LooseCopy])
  const Opened := Collection(Original(0), None, Sequence, [Unlooped])

  lemma SelfHoldingExpands()
    ensures DistinctIds(Flat(SelfHolding)) && Target(SelfHolding, Inside) == Some(Loop)
    ensures RemoveAnchor(SelfHolding, Loop) == Opened && Target(Opened, LooseRef) == None
  {
    FlatOne(Inside);
    FlatOne(Loop);
    var flat := Flat(SelfHolding);
    assert flat == [SelfHolding, Loop, Inside];
    BeforeIsPrefix(flat, 2);
    LastOf([SelfHolding], Loop, [], "a");
    assert flat[..2] == [SelfHolding] + [Loop] + [];
    assert Copy(Original(2), Loop).items == [LooseRef];
    assert Expand(SelfHolding, Loop, Loop).items == [LooseCopy];
    assert Expand(SelfHolding, Loop, SelfHolding).items == [Unlooped];
    FlatOne(LooseRef);
    FlatOne(LooseCopy);
    FlatOne(Unlooped);
    var front := [Opened, Unlooped, LooseCopy];
    assert Flat(Opened) == front + [LooseRef];
    forall i | 0 <= i < |front| ensures front[i].id != LooseRef.id {}
    BeforeSkips(front, [LooseRef], LooseRef.id);
    LastSkipsBare([], front, "a");
  }

  // An alias inside its own target is lost: in [&a [*a]] the copy that replaces *a holds an
  // alias of the name just removed.
  lemma SelfAliasIsLost()
    ensures !SameData(SelfHolding, RemoveAnchor(SelfHolding, Loop))
  {
    SelfHoldingExpands();
    assert Value(Opened, LooseCopy, 1).items[0] == Value(Opened, LooseRef, 0) == Dangling;
    assert Value(Opened, Unlooped, 2).items[0] == Value(Opened, LooseCopy, 1);
    assert Value(Opened, Opened, 3).items[0] == Value(Opened, Unlooped, 2);
    assert Value(SelfHolding, Loop, 1).items[0] == Value(SelfHolding, Inside, 0);
    assert Value(SelfHolding, Inside, 0) == Value(SelfHolding, Loop, 0) == Deeper;
    assert Value(SelfHolding, Loop, 2).items[0] == Value(SelfHolding, Inside, 1) == Value(SelfHolding, Loop, 1);
    assert Value(SelfHolding, SelfHolding, 3).items[0] == Value(SelfHolding, Loop, 2);
  }
}

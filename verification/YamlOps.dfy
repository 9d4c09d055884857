// The YAML edits on a document's node objects, and the reorderings they perform.
module YamlOps {
  import opened Prelude
  import opened YamlTree
  import opened YamlAnchors
  import opened YamlReorder
  import Sequences
  import Sorting

  // ---------------------------------------------------------------- the alias check

  // Anchor and alias of one node, all the checks look at.
  datatype Tag = Tag(anchor: Option<string>, source: Option<string>)

  function TagOf(n: Node): Tag {
    Tag(AnchorOf(n), if n.Alias? then Some(n.source) else None)
  }

  function TagsOf(nodes: seq<Node>): seq<Tag> {
    seq(|nodes|, i requires 0 <= i < |nodes| => TagOf(nodes[i]))
  }

  // The last position before `end` whose node carries `name`.
  function LastCarrier(tags: seq<Tag>, end: nat, name: string): (q: Option<nat>)
    requires end <= |tags|
    ensures q.Some? ==> q.value < end && tags[q.value].anchor == Some(name)
    ensures q.Some? ==> forall i :: q.value < i < end ==> tags[i].anchor != Some(name)
    ensures q.None? ==> forall i :: 0 <= i < end ==> tags[i].anchor != Some(name)
  {
    if end == 0 then None
    else if tags[end - 1].anchor == Some(name) then Some(end - 1)
    else LastCarrier(tags, end - 1, name)
  }

  function Binder(tags: seq<Tag>, p: nat): Option<nat>
    requires p < |tags| && tags[p].source.Some?
  {
    LastCarrier(tags, p, tags[p].source.value)
  }

  // Every alias follows a node with its anchor.
  ghost predicate AliasesResolve(tags: seq<Tag>) {
    forall p :: 0 <= p < |tags| && tags[p].source.Some? ==> Binder(tags, p).Some?
  }

  lemma {:induction false} LastCarrierIsLastAnchored(nodes: seq<Node>, end: nat, name: string)
    requires end <= |nodes|
    ensures LastAnchored(nodes[..end], name) ==
            if LastCarrier(TagsOf(nodes), end, name).Some? then Some(nodes[LastCarrier(TagsOf(nodes), end, name).value])
            else None
  {
    if end > 0 {
      assert nodes[..end][..end - 1] == nodes[..end - 1];
      LastCarrierIsLastAnchored(nodes, end - 1, name);
    }
  }

  // The position-wise binding is the target of the alias.
  lemma BinderIsTarget(doc: Node, p: nat)
    requires DistinctIds(Flat(doc)) && p < |Flat(doc)| && Flat(doc)[p].Alias?
    ensures Target(doc, Flat(doc)[p]) ==
            if Binder(TagsOf(Flat(doc)), p).Some? then Some(Flat(doc)[Binder(TagsOf(Flat(doc)), p).value]) else None
  {
    BeforeIsPrefix(Flat(doc), p);
    LastCarrierIsLastAnchored(Flat(doc), p, Flat(doc)[p].source);
  }

  lemma AliasCheckIsExact(doc: Node)
    requires DistinctIds(Flat(doc))
    ensures AliasesResolve(TagsOf(Flat(doc))) <==> AllResolve(doc)
  {
    var flat := Flat(doc);
    if AllResolve(doc) {
      forall p | 0 <= p < |flat| && TagsOf(flat)[p].source.Some? ensures Binder(TagsOf(flat), p).Some? {
        assert IsAlias(doc, flat[p]);
        BinderIsTarget(doc, p);
      }
    }
    if AliasesResolve(TagsOf(flat)) {
      forall a | IsAlias(doc, a) ensures Target(doc, a).Some? {
        var p :| 0 <= p < |flat| && flat[p] == a;
        assert TagsOf(flat)[p].source.Some?;
        BinderIsTarget(doc, p);
      }
    }
  }

  // ---------------------------------------------------------------- node objects

  // Renaming position `t` to `name`: its aliases follow.
  function RenameTags(tags: seq<Tag>, t: nat, name: string): seq<Tag> {
    seq(|tags|, p requires 0 <= p < |tags| =>
      Tag(if p == t then Some(name) else tags[p].anchor,
          if tags[p].source.Some? && Binder(tags, p) == Some(t) then Some(name) else tags[p].source))
  }

  // The tree's renaming is the tags' renaming.
  lemma RenameTagsIsRename(doc: Node, t: nat, name: string)
    requires DistinctIds(Flat(doc)) && t < |Flat(doc)| && !Flat(doc)[t].Alias?
    ensures TagsOf(Flat(Rename(doc, Flat(doc)[t].id, name, doc))) == RenameTags(TagsOf(Flat(doc)), t, name)
  {
    var flat := Flat(doc);
    var node := flat[t].id;
    FlatRename(doc, node, name, doc);
    forall p | 0 <= p < |flat|
      ensures TagOf(Rename(doc, node, name, flat[p])) == RenameTags(TagsOf(flat), t, name)[p]
    {
      if flat[p].Alias? {
        BinderIsTarget(doc, p);
      }
    }
  }

  // What `YamlDocument.SetAnchor` leaves behind is what the tree's edit makes of the document,
  // accepted in the same cases, and the document's data is the same.
  lemma SettingInPlaceKeepsData(doc: Node, t: nat, name: string)
    requires DistinctIds(Flat(doc)) && AllResolve(doc) && t < |Flat(doc)| && !Flat(doc)[t].Alias?
    ensures var tags, edited := TagsOf(Flat(doc)), SetAnchor(doc, Flat(doc)[t], name);
            && (edited.Some? <==> tags[t].anchor == Some(name) || LastCarrier(tags, |tags|, name).None?)
            && (edited.Some? && tags[t].anchor != Some(name) ==>
                  TagsOf(Flat(edited.value)) == RenameTags(tags, t, name))
            && (edited.Some? && tags[t].anchor == Some(name) ==> TagsOf(Flat(edited.value)) == tags)
            && (edited.Some? ==> SameData(doc, edited.value))
  {
    var flat := Flat(doc);
    assert flat[..|flat|] == flat;
    LastCarrierIsLastAnchored(flat, |flat|, name);
    RenameTagsIsRename(doc, t, name);
    SetAnchorKeepsData(doc, flat[t], name);
  }

  class YamlNode {
    const isAlias: bool
    var anchor: Option<string>
    var source: string

    constructor (isAlias: bool, anchor: Option<string>, source: string)
      ensures this.isAlias == isAlias && this.anchor == anchor && this.source == source
    {
      this.isAlias := isAlias;
      this.anchor := anchor;
      this.source := source;
    }

    ghost function View(): Tag
      reads this
    {
      Tag(if isAlias then None else anchor, if isAlias then Some(source) else None)
    }
  }

  class YamlDocument {
    var nodes: seq<YamlNode>   // in document order

    constructor (nodes: seq<YamlNode>)
      ensures this.nodes == nodes
    {
      this.nodes := nodes;
    }

    ghost predicate Valid()
      reads this
    {
      forall i, j :: 0 <= i < j < |nodes| ==> nodes[i] != nodes[j]
    }

    ghost function Tags(): (tags: seq<Tag>)
      reads this, nodes
      ensures |tags| == |nodes|
      ensures forall i :: 0 <= i < |nodes| ==> tags[i] == nodes[i].View()
    {
      seq(|nodes|, i requires 0 <= i < |nodes| reads this, nodes => nodes[i].View())
    }

    // alias.resolve(document): a scan up to the alias that keeps the last carrier.
    method ResolveAlias(p: nat) returns (found: Option<nat>)
      requires p < |nodes| && nodes[p].isAlias
      ensures found == Binder(Tags(), p)
    {
      found := None;
      for q := 0 to p
        invariant found == LastCarrier(Tags(), q, nodes[p].source)
      {
        if !nodes[q].isAlias && nodes[q].anchor == Some(nodes[p].source) {
          found := Some(q);
        }
      }
    }

    method FindAnchored(name: string) returns (found: Option<nat>)
      ensures found == LastCarrier(Tags(), |nodes|, name)
    {
      found := None;
      for q := 0 to |nodes|
        invariant found == LastCarrier(Tags(), q, name)
      {
        if !nodes[q].isAlias && nodes[q].anchor == Some(name) {
          found := Some(q);
        }
      }
    }

    // The positions of the aliases that stand for node `t`.
    method AliasesOf(t: nat) returns (aliases: seq<nat>)
      ensures forall p: nat :: p in aliases <==> p < |nodes| && nodes[p].isAlias && Binder(Tags(), p) == Some(t)
    {
      aliases := [];
      for p := 0 to |nodes|
        invariant forall q: nat :: q in aliases <==> q < p && nodes[q].isAlias && Binder(Tags(), q) == Some(t)
      {
        if nodes[p].isAlias {
          var target := ResolveAlias(p);
          if target == Some(t) { aliases := aliases + [p]; }
        }
      }
    }

    // Re-points every listed alias, in place.
    method Repoint(aliases: seq<nat>, name: string)
      requires Valid()
      requires forall i :: 0 <= i < |aliases| ==> aliases[i] < |nodes| && nodes[aliases[i]].isAlias
      modifies nodes
      ensures forall p :: 0 <= p < |nodes| ==> nodes[p].anchor == old(nodes[p].anchor)
      ensures forall p: nat :: p < |nodes| ==>
                nodes[p].source == if p in aliases then name else old(nodes[p].source)
    {
      for i := 0 to |aliases|
        invariant forall p :: 0 <= p < |nodes| ==> nodes[p].anchor == old(nodes[p].anchor)
        invariant forall p: nat :: p < |nodes| ==>
                    nodes[p].source == if p in aliases[..i] then name else old(nodes[p].source)
      {
        nodes[aliases[i]].source := name;
        assert aliases[..i + 1] == aliases[..i] + [aliases[i]];
      }
      assert aliases[..|aliases|] == aliases;
    }

    // Puts `&name` on node `t`, re-pointing its aliases in place. Refused when another node
    // carries the name, and then nothing changes.
    method SetAnchor(t: nat, name: string) returns (accepted: bool)
      requires Valid() && t < |nodes| && !nodes[t].isAlias
      modifies nodes
      ensures accepted <==> old(nodes[t].anchor) == Some(name) || old(LastCarrier(Tags(), |nodes|, name)).None?
      ensures accepted && old(nodes[t].anchor) != Some(name) ==> Tags() == old(RenameTags(Tags(), t, name))
      ensures !accepted || old(nodes[t].anchor) == Some(name) ==> Tags() == old(Tags())
    {
      if nodes[t].anchor == Some(name) { return true; }
      var taken := FindAnchored(name);
      if taken.Some? { return false; }
      Reanchor(t, name);
      accepted := true;
    }

    // The node's aliases get the new name, then the node itself.
    method Reanchor(t: nat, name: string)
      requires Valid() && t < |nodes| && !nodes[t].isAlias
      modifies nodes
      ensures Tags() == old(RenameTags(Tags(), t, name))
    {
      var aliases := AliasesOf(t);
      forall i | 0 <= i < |aliases| ensures aliases[i] < |nodes| && nodes[aliases[i]].isAlias {
        assert aliases[i] in aliases;
      }
      Repoint(aliases, name);
      nodes[t].anchor := Some(name);
    }

    // One pass with the set of names seen so far.
    method AssertAliasesResolve() returns (ok: bool)
      ensures ok <==> AliasesResolve(Tags())
    {
      var seen: set<string> := {};
      for p := 0 to |nodes|
        invariant forall name :: name in seen <==> LastCarrier(Tags(), p, name).Some?
        invariant forall q :: 0 <= q < p && nodes[q].isAlias ==> Binder(Tags(), q).Some?
      {
        if nodes[p].isAlias {
          if nodes[p].source !in seen {
            assert Binder(Tags(), p).None?;
            return false;
          }
        } else if nodes[p].anchor.Some? {
          seen := seen + {nodes[p].anchor.value};
        }
      }
      ok := true;
    }
  }

  // ---------------------------------------------------------------- sortKeys and moveItem

  function Label(entry: Node): string {
    if entry.Collection? && entry.kind.Entry? && entry.items != [] && entry.items[0].Scalar? then entry.items[0].value
    else ""
  }

  // The comparator: labels by UTF-16 code unit.
  predicate EntryLe(a: Node, b: Node) {
    Sorting.LexLe(Sorting.CodeUnits(Label(a)), Sorting.CodeUnits(Label(b)))
  }

  // The collections a recursive sort visits: values of entries and items of sequences,
  // never through an alias and never inside a key.
  function Visited(n: Node): set<Id>
    decreases n, 1
  {
    if !n.Collection? then {}
    else if n.kind.Entry? then (if |n.items| == 2 then Visited(n.items[1]) else {})
    else {n.id} + VisitedAll(n.items)
  }

  function VisitedAll(items: seq<Node>): set<Id>
    decreases items, 0
  {
    if items == [] then {} else Visited(items[0]) + VisitedAll(items[1..])
  }

  function SortOrder(mapping: Node, recursive: bool): Order {
    var ids := if recursive then Visited(mapping) else {mapping.id};
    (m: Node) =>
      if m.Collection? && m.kind.Mapping? && m.id in ids then Sorting.StableSort((a, b) => EntryLe(a, b), m.items)
      else if m.Collection? then m.items else []
  }

  function MoveOrder(list: Node, from: nat, to: nat): Order {
    (m: Node) =>
      if m.Collection? && m.id == list.id && from < |m.items| && to < |m.items| then Sequences.Moved(m.items, from, to)
      else if m.Collection? then m.items else []
  }

  lemma SortPermutes(mapping: Node, recursive: bool, doc: Node)
    ensures Permutes(SortOrder(mapping, recursive), doc)
  {
  }

  lemma MovePermutes(list: Node, from: nat, to: nat, doc: Node)
    ensures Permutes(MoveOrder(list, from, to), doc)
  {
  }

  lemma EntryOrderIsPreorder()
    ensures Sorting.TotalPreorder((a: Node, b: Node) => EntryLe(a, b))
  {
    forall a: Node, b: Node ensures EntryLe(a, b) || EntryLe(b, a) {
      Sorting.LexTotal(Sorting.CodeUnits(Label(a)), Sorting.CodeUnits(Label(b)));
    }
    forall a: Node, b: Node, c: Node | EntryLe(a, b) && EntryLe(b, c) ensures EntryLe(a, c) {
      Sorting.LexTransitive(Sorting.CodeUnits(Label(a)), Sorting.CodeUnits(Label(b)), Sorting.CodeUnits(Label(c)));
    }
  }

  // A sorted mapping's entries are in label order, equal labels in their old order.
  lemma SortedEntries(mapping: Node, recursive: bool, m: Node, k: Node)
    requires m.Collection? && m.kind.Mapping? && m.id in (if recursive then Visited(mapping) else {mapping.id})
    ensures Sorting.Sorted((a: Node, b: Node) => EntryLe(a, b), SortOrder(mapping, recursive)(m))
    ensures Sorting.Tied((a: Node, b: Node) => EntryLe(a, b), k, SortOrder(mapping, recursive)(m))
         == Sorting.Tied((a: Node, b: Node) => EntryLe(a, b), k, m.items)
  {
    EntryOrderIsPreorder();
    Sorting.StableSortSorts((a: Node, b: Node) => EntryLe(a, b), m.items);
    Sorting.StableSortIsStable((a: Node, b: Node) => EntryLe(a, b), m.items, k);
  }

  // A reordering edit: the new document, or a refusal when an alias would lose its anchor.
  function Edit(order: Order, doc: Node): (r: Option<Node>) {
    var doc' := Reorder(order, doc);
    if Accepts(TagsOf(Flat(doc')), |TagsOf(Flat(doc'))|) then Some(doc') else None
  }

  predicate Accepts(tags: seq<Tag>, end: nat)
    requires end <= |tags|
  {
    end == 0 || ((tags[end - 1].source.Some? ==> Binder(tags, end - 1).Some?) && Accepts(tags, end - 1))
  }

  lemma {:induction false} AcceptsMeans(tags: seq<Tag>, end: nat)
    requires end <= |tags|
    ensures Accepts(tags, end) <==> forall p :: 0 <= p < end && tags[p].source.Some? ==> Binder(tags, p).Some?
  {
    if end > 0 { AcceptsMeans(tags, end - 1); }
  }

  // An edit is accepted exactly when every alias still follows a node with its anchor; then
  // every alias stands for the node it stood for and the data is the original, reordered.
  lemma ReorderingEditIsSafe(order: Order, doc: Node)
    requires Permutes(order, doc) && UniqueAnchors(doc) && AllResolve(doc) && DistinctIds(Flat(doc))
    ensures Edit(order, doc).Some? <==> AllResolve(Reorder(order, doc))
    ensures Edit(order, doc).Some? ==>
              forall depth: nat ::
                Value(Edit(order, doc).value, Edit(order, doc).value, depth) == ValueIn(order, doc, doc, depth)
    ensures Edit(order, doc).Some? ==>
              forall a :: IsAlias(doc, a) ==>
                Target(Edit(order, doc).value, a) == Some(Reorder(order, Target(doc, a).value))
  {
    var doc' := Reorder(order, doc);
    var tags := TagsOf(Flat(doc'));
    AcceptsMeans(tags, |tags|);
    ReorderKeepsDistinctIds(order, doc);
    AliasCheckIsExact(doc');
    if AllResolve(doc') {
      AcceptedReorderKeepsData(order, doc);
      AcceptedReorderKeepsTargets(order, doc);
    }
  }

  lemma SortKeysIsSafe(doc: Node, mapping: Node, recursive: bool)
    requires UniqueAnchors(doc) && AllResolve(doc) && DistinctIds(Flat(doc))
    ensures var order := SortOrder(mapping, recursive);
            && (Edit(order, doc).Some? <==> AllResolve(Reorder(order, doc)))
            && (Edit(order, doc).Some? ==>
                  forall depth: nat ::
                    Value(Edit(order, doc).value, Edit(order, doc).value, depth) == ValueIn(order, doc, doc, depth))
  {
    SortPermutes(mapping, recursive, doc);
    ReorderingEditIsSafe(SortOrder(mapping, recursive), doc);
  }

  lemma MoveItemIsSafe(doc: Node, list: Node, from: nat, to: nat)
    requires UniqueAnchors(doc) && AllResolve(doc) && DistinctIds(Flat(doc))
    ensures var order := MoveOrder(list, from, to);
            && (Edit(order, doc).Some? <==> AllResolve(Reorder(order, doc)))
            && (Edit(order, doc).Some? ==>
                  forall depth: nat ::
                    Value(Edit(order, doc).value, Edit(order, doc).value, depth) == ValueIn(order, doc, doc, depth))
  {
    MovePermutes(list, from, to, doc);
    ReorderingEditIsSafe(MoveOrder(list, from, to), doc);
  }
}

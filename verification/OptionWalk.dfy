// Walking an author's value, a finite object graph that may share and may loop, before it is
// serialized.
module OptionWalk {
  import opened Prelude

  type Id = nat

  datatype Primitive =
    | Undefined | Function | Symbol | BigInt
    | Null | Boolean(b: bool) | Text(s: string) | Number(finite: bool)

  datatype Value = Leaf(primitive: Primitive) | Ref(id: Id)

  // An array or object with its items or property values in order. Instances of other classes,
  // dates and maps are not plain.
  datatype Obj = Obj(plain: bool, children: seq<Value>)

  type Graph = map<Id, Obj>

  ghost predicate Closed(g: Graph) {
    forall id: Id, i: nat :: id in g && i < |g[id].children| ==> Known(g, g[id].children[i])
  }

  predicate Known(g: Graph, v: Value) {
    v.Ref? ==> v.id in g
  }

  // What the option walk lets through: a number that is not finite passes.
  predicate Encodable(p: Primitive) {
    !p.Undefined? && !p.Function? && !p.Symbol? && !p.BigInt?
  }

  // What the JSON-value walk lets through.
  predicate Representable(p: Primitive) {
    p.Null? || p.Boolean? || p.Text? || (p.Number? && p.finite)
  }

  // ---------------------------------------------------------------- reachability

  predicate Edge(g: Graph, a: Id, b: Id) {
    a in g && Ref(b) in g[a].children
  }

  ghost predicate Chain(g: Graph, p: seq<Id>) {
    p != [] && forall i: nat :: i + 1 < |p| ==> EdgeAt(g, p, i)
  }

  ghost predicate EdgeAt(g: Graph, p: seq<Id>, i: nat) {
    i + 1 < |p| ==> Edge(g, p[i], p[i + 1])
  }

  ghost predicate Reaches(g: Graph, a: Id, b: Id) {
    exists p: seq<Id> :: ChainFromTo(g, p, a, b)
  }

  ghost predicate ChainFromTo(g: Graph, p: seq<Id>, a: Id, b: Id) {
    Chain(g, p) && p[0] == a && p[|p| - 1] == b
  }

  ghost predicate OnCycle(g: Graph, x: Id) {
    exists p: seq<Id> :: ChainFromTo(g, p, x, x) && |p| > 1
  }

  // A plain container whose own leaves are all acceptable.
  ghost predicate Fine(g: Graph, x: Id, ok: Primitive -> bool) {
    x in g && g[x].plain && forall i :: 0 <= i < |g[x].children| && g[x].children[i].Leaf? ==>
      ok(g[x].children[i].primitive)
  }

  // No cycle can be reached, and everything that can be reached is acceptable.
  ghost predicate Clean(g: Graph, v: Value, ok: Primitive -> bool) {
    if v.Leaf? then ok(v.primitive)
    else forall x :: Reaches(g, v.id, x) ==> Fine(g, x, ok) && !OnCycle(g, x)
  }

  // ---------------------------------------------------------------- the walk

  function Walk(g: Graph, v: Value, ancestors: set<Id>, ok: Primitive -> bool): bool
    decreases g.Keys - ancestors
  {
    if v.Leaf? then ok(v.primitive)
    else
      v.id in g && g[v.id].plain && v.id !in ancestors &&
      forall i: nat :: i < |g[v.id].children| ==> Walk(g, g[v.id].children[i], ancestors + {v.id}, ok)
  }

  lemma ChainTail(g: Graph, p: seq<Id>)
    requires Chain(g, p) && |p| > 1
    ensures Edge(g, p[0], p[1]) && Chain(g, p[1..])
  {
    assert EdgeAt(g, p, 0);
    forall i: nat | i + 1 < |p[1..]| ensures EdgeAt(g, p[1..], i) { assert EdgeAt(g, p, i + 1); }
  }

  lemma ChainJoin(g: Graph, p: seq<Id>, q: seq<Id>)
    requires Chain(g, p) && Chain(g, q) && p[|p| - 1] == q[0]
    ensures Chain(g, p + q[1..])
  {
    var all := p + q[1..];
    forall i: nat | i + 1 < |all| ensures EdgeAt(g, all, i) {
      if i + 1 < |p| { assert EdgeAt(g, p, i); } else { assert EdgeAt(g, q, i + 1 - |p|); }
    }
  }

  lemma ChainSlice(g: Graph, p: seq<Id>, i: nat)
    requires Chain(g, p) && i < |p|
    ensures Chain(g, p[i..])
  {
    forall k: nat | k + 1 < |p[i..]| ensures EdgeAt(g, p[i..], k) { assert EdgeAt(g, p, i + k); }
  }

  ghost predicate Distinct(p: seq<Id>) {
    forall i, j :: 0 <= i < j < |p| ==> p[i] != p[j]
  }

  // Along every chain from an accepted value: no ancestor, no repetition, nothing unacceptable.
  lemma {:induction false} AcceptedChain(g: Graph, ancestors: set<Id>, ok: Primitive -> bool, p: seq<Id>)
    requires Chain(g, p) && Walk(g, Ref(p[0]), ancestors, ok)
    ensures forall i :: 0 <= i < |p| ==> p[i] !in ancestors
    ensures Distinct(p) && Fine(g, p[|p| - 1], ok)
    decreases |p|
  {
    if |p| == 1 {
      forall i: nat | i < |g[p[0]].children| && g[p[0]].children[i].Leaf? ensures ok(g[p[0]].children[i].primitive) {
        assert Walk(g, g[p[0]].children[i], ancestors + {p[0]}, ok);
      }
    } else {
      ChainTail(g, p);
      var k: nat :| k < |g[p[0]].children| && g[p[0]].children[k] == Ref(p[1]);
      assert Walk(g, g[p[0]].children[k], ancestors + {p[0]}, ok);
      AcceptedChain(g, ancestors + {p[0]}, ok, p[1..]);
      forall i | 0 <= i < |p| ensures p[i] !in ancestors { if i > 0 { assert p[i] == p[1..][i - 1]; } }
      forall i, j | 0 <= i < j < |p| ensures p[i] != p[j] {
        assert p[j] == p[1..][j - 1];
        if i > 0 { assert p[i] == p[1..][i - 1]; }
      }
    }
  }

  lemma AcceptedIsClean(g: Graph, v: Value, ok: Primitive -> bool)
    requires Walk(g, v, {}, ok)
    ensures Clean(g, v, ok)
  {
    if v.Ref? {
      forall x | Reaches(g, v.id, x) ensures Fine(g, x, ok) && !OnCycle(g, x) {
        var p: seq<Id> :| ChainFromTo(g, p, v.id, x);
        AcceptedChain(g, {}, ok, p);
        if OnCycle(g, x) {
          var q: seq<Id> :| ChainFromTo(g, q, x, x) && |q| > 1;
          ChainJoin(g, p, q);
          assert (p + q[1..])[|p| - 1] == x && (p + q[1..])[|p| + |q| - 2] == x;
          AcceptedChain(g, {}, ok, p + q[1..]);
          assert false;
        }
      }
    }
  }

  // `trail` is the chain of objects being walked; the walk below its end accepts `v`.
  lemma {:induction false} CleanIsAccepted(g: Graph, root: Id, trail: seq<Id>, v: Value, ok: Primitive -> bool)
    requires Closed(g) && Clean(g, Ref(root), ok) && Known(g, v)
    requires trail == [] ==> v == Ref(root)
    requires trail != [] ==>
               Chain(g, trail) && trail[0] == root && trail[|trail| - 1] in g && v in g[trail[|trail| - 1]].children
    ensures Walk(g, v, Elements(trail), ok)
    decreases g.Keys - Elements(trail), |trail|
  {
    if v.Leaf? {
      var last := trail[|trail| - 1];
      assert ChainFromTo(g, trail, root, last) && Reaches(g, root, last);
      var i: nat :| i < |g[last].children| && g[last].children[i] == v;
    } else {
      var longer := trail + [v.id];
      LongerTrail(g, root, trail, v);
      assert ChainFromTo(g, longer, root, v.id) && Reaches(g, root, v.id);
      NoWayBack(g, root, trail, v, ok);
      assert Elements(longer) == Elements(trail) + {v.id};
      forall i: nat | i < |g[v.id].children|
        ensures Walk(g, g[v.id].children[i], Elements(trail) + {v.id}, ok)
      {
        assert Known(g, g[v.id].children[i]);
        CleanIsAccepted(g, root, longer, g[v.id].children[i], ok);
      }
    }
  }

  function Elements(p: seq<Id>): set<Id> {
    set x | x in p
  }

  lemma LongerTrail(g: Graph, root: Id, trail: seq<Id>, v: Value)
    requires v.Ref?
    requires trail == [] ==> v == Ref(root)
    requires trail != [] ==>
               Chain(g, trail) && trail[0] == root && trail[|trail| - 1] in g && v in g[trail[|trail| - 1]].children
    ensures Chain(g, trail + [v.id]) && (trail + [v.id])[0] == root
  {
    var longer := trail + [v.id];
    forall i: nat | i + 1 < |longer| ensures EdgeAt(g, longer, i) {
      if i + 1 < |trail| { assert EdgeAt(g, trail, i); }
    }
  }

  lemma NoWayBack(g: Graph, root: Id, trail: seq<Id>, v: Value, ok: Primitive -> bool)
    requires v.Ref? && Clean(g, Ref(root), ok)
    requires Chain(g, trail + [v.id]) && (trail + [v.id])[0] == root
    ensures v.id !in Elements(trail)
  {
    var longer := trail + [v.id];
    assert ChainFromTo(g, longer, root, v.id) && Reaches(g, root, v.id);
    assert !OnCycle(g, v.id);
    forall i: nat | i < |trail| ensures trail[i] != v.id {
      ChainSlice(g, longer, i);
      assert longer[i..][0] == trail[i] && |longer[i..]| > 1;
      assert !ChainFromTo(g, longer[i..], v.id, v.id);
    }
  }

  // The walk accepts exactly the values from which no cycle and nothing unacceptable is reached;
  // reaching an object twice is no cycle.
  lemma WalkIsExact(g: Graph, v: Value, ok: Primitive -> bool)
    requires Closed(g) && Known(g, v)
    ensures Walk(g, v, {}, ok) <==> Clean(g, v, ok)
  {
    if Walk(g, v, {}, ok) { AcceptedIsClean(g, v, ok); }
    if v.Ref? && Clean(g, v, ok) {
      CleanIsAccepted(g, v.id, [], v, ok);
      assert Elements([]) == {};
    }
  }

  // ---------------------------------------------------------------- the two walkers

  class Walker {
    const g: Graph
    var ancestors: set<Id>

    constructor (g: Graph)
      ensures this.g == g && ancestors == {}
    {
      this.g := g;
      ancestors := {};
    }

    // The ancestor set is restored whether the value passes or not.
    method AssertEncodable(v: Value) returns (accepted: bool)
      requires Known(g, v) && Closed(g)
      modifies this
      ensures accepted == Walk(g, v, old(ancestors), Encodable) && ancestors == old(ancestors)
      decreases g.Keys - ancestors
    {
      if v.Leaf? { return Encodable(v.primitive); }
      var obj := g[v.id];
      if !obj.plain { return false; }
      if v.id in ancestors { return false; }
      ghost var before := ancestors;
      ancestors := ancestors + {v.id};
      accepted := true;
      var i := 0;
      while i < |obj.children| && accepted
        invariant i <= |obj.children| && ancestors == before + {v.id}
        invariant accepted ==> forall k: nat :: k < i ==> Walk(g, obj.children[k], before + {v.id}, Encodable)
        invariant !accepted ==>
                    exists k: nat :: k < |obj.children| && !Walk(g, obj.children[k], before + {v.id}, Encodable)
      {
        accepted := AssertEncodable(obj.children[i]);
        i := i + 1;
      }
      ancestors := ancestors - {v.id};
      assert ancestors == before;
    }

    // Here a rejected value leaves the set as the throw found it.
    method AssertJsonValue(v: Value) returns (accepted: bool)
      requires Known(g, v) && Closed(g)
      modifies this
      ensures accepted == Walk(g, v, old(ancestors), Representable)
      ensures accepted ==> ancestors == old(ancestors)
      decreases g.Keys - ancestors
    {
      if v.Leaf? { return Representable(v.primitive); }
      if v.id in ancestors { return false; }
      var obj := g[v.id];
      if !obj.plain { return false; }
      ghost var before := ancestors;
      ancestors := ancestors + {v.id};
      for i := 0 to |obj.children|
        invariant ancestors == before + {v.id}
        invariant forall k: nat :: k < i ==> Walk(g, obj.children[k], before + {v.id}, Representable)
      {
        accepted := AssertJsonValue(obj.children[i]);
        if !accepted { return; }
      }
      ancestors := ancestors - {v.id};
      assert ancestors == before;
      return true;
    }
  }

  // ---------------------------------------------------------------- encodeOptions

  datatype Entry = Entry(key: string, value: Value)

  // A top-level value as it goes on the wire: composites as their JSON text.
  datatype Encoded = Plain(primitive: Primitive) | JsonText(text: string)
  datatype EncodedEntry = EncodedEntry(key: string, value: Encoded)

  function Encode(v: Value, stringify: Id -> string): Encoded {
    if v.Ref? then JsonText(stringify(v.id)) else Plain(v.primitive)
  }

  // Keys in order, every value encoded; absent when one of them is rejected.
  method EncodeOptions(g: Graph, options: seq<Entry>, stringify: Id -> string) returns (r: Option<seq<EncodedEntry>>)
    requires Closed(g) && forall i :: 0 <= i < |options| ==> Known(g, options[i].value)
    ensures r.Some? <==> forall i :: 0 <= i < |options| ==> Clean(g, options[i].value, Encodable)
    ensures r.Some? ==> |r.value| == |options|
    ensures r.Some? ==> forall i :: 0 <= i < |options| ==>
                          r.value[i] == EncodedEntry(options[i].key, Encode(options[i].value, stringify))
  {
    var result := [];
    for i := 0 to |options|
      invariant |result| == i
      invariant forall k :: 0 <= k < i ==> Clean(g, options[k].value, Encodable)
      invariant forall k :: 0 <= k < i ==>
                  result[k] == EncodedEntry(options[k].key, Encode(options[k].value, stringify))
    {
      var walker := new Walker(g);
      var accepted := walker.AssertEncodable(options[i].value);
      WalkIsExact(g, options[i].value, Encodable);
      if !accepted { return None; }
      result := result + [EncodedEntry(options[i].key, Encode(options[i].value, stringify))];
    }
    return Some(result);
  }
}

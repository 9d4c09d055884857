// Plain list edits: what the text and tree edits amount to on the members themselves.
module Sequences {
  function Without<T>(items: seq<T>, i: nat): (r: seq<T>)
    requires i < |items|
    ensures |r| == |items| - 1
  {
    items[..i] + items[i + 1..]
  }

  function With<T>(items: seq<T>, i: nat, x: T): (r: seq<T>)
    requires i <= |items|
    ensures |r| == |items| + 1 && r[i] == x
  {
    items[..i] + [x] + items[i..]
  }

  function Moved<T>(items: seq<T>, from: nat, to: nat): (r: seq<T>)
    requires from < |items| && to < |items|
    ensures multiset(r) == multiset(items)
  {
    var rest := Without(items, from);
    assert items == items[..from] + [items[from]] + items[from + 1..];
    assert rest == rest[..to] + rest[to..];
    assert multiset(rest[..to] + [items[from]] + rest[to..]) == multiset(rest) + multiset{items[from]};
    With(rest, to, items[from])
  }

  // Where the moved item ends up, and that the others keep their relative order.
  lemma MovedMeans<T>(items: seq<T>, from: nat, to: nat)
    requires from < |items| && to < |items|
    ensures var r := Moved(items, from, to);
            |r| == |items| && r[to] == items[from] && r[..to] + r[to + 1..] == items[..from] + items[from + 1..]
  {
  }

  // The items that do not satisfy `drop`, in order.
  function Rejecting<T>(items: seq<T>, drop: T -> bool): (r: seq<T>)
    ensures forall i :: 0 <= i < |r| ==> r[i] in items && !drop(r[i])
    ensures forall i :: 0 <= i < |items| && !drop(items[i]) ==> items[i] in r
    ensures (forall i :: 0 <= i < |items| ==> !drop(items[i])) ==> r == items
  {
    if items == [] then []
    else if drop(items[0]) then Rejecting(items[1..], drop)
    else [items[0]] + Rejecting(items[1..], drop)
  }

  lemma {:induction false} RejectingAppend<T>(front: seq<T>, back: seq<T>, drop: T -> bool)
    ensures Rejecting(front + back, drop) == Rejecting(front, drop) + Rejecting(back, drop)
  {
    if front == [] {
      assert front + back == back;
    } else {
      assert (front + back)[1..] == front[1..] + back;
      RejectingAppend(front[1..], back, drop);
    }
  }
}

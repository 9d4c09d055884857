// Moving a member and removing every member that matches.
module JsonMoves {
  import opened JsonTokens
  import opened JsonEdits
  import opened JsonInserts
  import Sequences

  // `rendered` is the moved member written anew from its data.
  function MoveItem(tokens: seq<Token>, from: nat, target: nat, rendered: Item, crlf: bool): seq<Token>
    requires WellFormed(tokens) && from < |Items(tokens)| && target < |Items(tokens)|
  {
    if from == target then tokens
    else
      RemoveAtRemoves(tokens, from);
      InsertAt(RemoveAt(tokens, from), target, rendered, crlf)
  }

  // The moved member ends up at `target`; the others keep their order.
  lemma MoveItemMoves(tokens: seq<Token>, from: nat, target: nat, rendered: Item, crlf: bool)
    requires WellFormed(tokens) && from < |Items(tokens)| && target < |Items(tokens)|
    ensures var r := MoveItem(tokens, from, target, rendered, crlf);
            && WellFormed(r)
            && Items(r) == if from == target then Items(tokens)
                           else Sequences.Moved(Items(tokens), from, target)[target := rendered]
  {
    if from != target {
      RemoveAtRemoves(tokens, from);
      InsertAtInserts(RemoveAt(tokens, from), target, rendered, crlf);
      WithReplaced(Sequences.Without(Items(tokens), from), target, Items(tokens)[from], rendered);
    }
  }

  lemma WithReplaced(items: seq<Item>, i: nat, x: Item, y: Item)
    requires i <= |items|
    ensures Sequences.With(items, i, x)[i := y] == Sequences.With(items, i, y)
  {}

  // Removes the matching members among the first `k`, the last one first.
  function RemoveMatches(tokens: seq<Token>, drop: Item -> bool, k: nat): seq<Token>
    requires WellFormed(tokens) && k <= |Items(tokens)|
    decreases k
  {
    if k == 0 then tokens
    else if drop(Items(tokens)[k - 1]) then
      RemoveAtRemoves(tokens, k - 1);
      RemoveMatches(RemoveAt(tokens, k - 1), drop, k - 1)
    else RemoveMatches(tokens, drop, k - 1)
  }

  lemma RejectingLast(items: seq<Item>, drop: Item -> bool, k: nat)
    requires 0 < k <= |items|
    ensures Sequences.Rejecting(items[..k], drop)
         == Sequences.Rejecting(items[..k - 1], drop) + if drop(items[k - 1]) then [] else [items[k - 1]]
  {
    assert items[..k] == items[..k - 1] + [items[k - 1]];
    Sequences.RejectingAppend(items[..k - 1], [items[k - 1]], drop);
    assert Sequences.Rejecting([items[k - 1]], drop) == if drop(items[k - 1]) then [] else [items[k - 1]];
  }

  lemma WithoutAround(items: seq<Item>, k: nat)
    requires 0 < k <= |items|
    ensures Sequences.Without(items, k - 1)[..k - 1] == items[..k - 1]
    ensures Sequences.Without(items, k - 1)[k - 1..] == items[k..]
    ensures items[k - 1..] == [items[k - 1]] + items[k..]
  {}

  lemma {:induction false} RemoveMatchesFilters(tokens: seq<Token>, drop: Item -> bool, k: nat)
    requires WellFormed(tokens) && k <= |Items(tokens)|
    ensures WellFormed(RemoveMatches(tokens, drop, k))
    ensures Items(RemoveMatches(tokens, drop, k)) == Sequences.Rejecting(Items(tokens)[..k], drop) + Items(tokens)[k..]
    decreases k
  {
    var items := Items(tokens);
    if k > 0 {
      RejectingLast(items, drop, k);
      WithoutAround(items, k);
      if drop(items[k - 1]) {
        RemoveAtRemoves(tokens, k - 1);
        RemoveMatchesFilters(RemoveAt(tokens, k - 1), drop, k - 1);
      } else {
        RemoveMatchesFilters(tokens, drop, k - 1);
      }
    }
  }

  // `removeValue` keeps exactly the members that do not match, in order.
  lemma RemoveValueFilters(tokens: seq<Token>, drop: Item -> bool)
    requires WellFormed(tokens)
    ensures WellFormed(RemoveMatches(tokens, drop, |Items(tokens)|))
    ensures Items(RemoveMatches(tokens, drop, |Items(tokens)|)) == Sequences.Rejecting(Items(tokens), drop)
  {
    RemoveMatchesFilters(tokens, drop, |Items(tokens)|);
    assert Items(tokens)[..|Items(tokens)|] == Items(tokens);
  }
}

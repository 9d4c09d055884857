// The inside of one JSONC container as the tokens of its text: members, commas, line
// breaks, spaces and comments. A member is one token however long its own text is.
module JsonTokens {
  import opened Prelude

  // A value of the document: a container keeps the tokens of its inside.
  datatype Value = Leaf(text: string) | Array(tokens: seq<Token>) | Object(tokens: seq<Token>)

  // A member of a container; an array's members have no key.
  datatype Item = Item(key: Option<string>, value: Value)

  datatype Token =
    | Member(item: Item)
    | Comma
    | Newline(crlf: bool)
    | Space(text: string)
    | LineComment(text: string)
    | BlockComment(text: string)   // never crosses a line break

  // ---------------------------------------------------------------- well-formed containers

  datatype Expect = Start | AfterItem | AfterComma | Broken

  function Feed(s: Expect, token: Token): Expect {
    match token
    case Member(_) => if s.Start? || s.AfterComma? then AfterItem else Broken
    case Comma => if s.AfterItem? then AfterComma else Broken
    case _ => s
  }

  // Members separated by single commas, with or without a trailing one.
  function Run(s: Expect, tokens: seq<Token>): Expect
    decreases |tokens|
  {
    if tokens == [] then s else Run(Feed(s, tokens[0]), tokens[1..])
  }

  // A line comment runs to the end of its line.
  ghost predicate ClosedAt(tokens: seq<Token>, i: nat) {
    i < |tokens| && tokens[i].LineComment? ==> i + 1 < |tokens| && tokens[i + 1].Newline?
  }

  ghost predicate Closed(tokens: seq<Token>) {
    forall i: nat :: i < |tokens| ==> ClosedAt(tokens, i)
  }

  ghost predicate WellFormed(tokens: seq<Token>) {
    !Run(Start, tokens).Broken? && Closed(tokens)
  }

  // The container's members, in order.
  function Items(tokens: seq<Token>): (items: seq<Item>)
    ensures |items| <= |tokens|
  {
    if tokens == [] then []
    else if tokens[0].Member? then [tokens[0].item] + Items(tokens[1..])
    else Items(tokens[1..])
  }

  ghost predicate Trivia(tokens: seq<Token>) {
    forall i :: 0 <= i < |tokens| ==> !tokens[i].Member? && !tokens[i].Comma?
  }

  // ---------------------------------------------------------------- composition

  lemma {:induction false} RunAppend(s: Expect, front: seq<Token>, back: seq<Token>)
    ensures Run(s, front + back) == Run(Run(s, front), back)
    decreases |front|
  {
    if front == [] {
      assert front + back == back;
    } else {
      assert (front + back)[1..] == front[1..] + back;
      RunAppend(Feed(s, front[0]), front[1..], back);
    }
  }

  lemma {:induction false} ItemsAppend(front: seq<Token>, back: seq<Token>)
    ensures Items(front + back) == Items(front) + Items(back)
  {
    var all := front + back;
    if front == [] {
      assert all == back;
    } else {
      var rest := front[1..];
      assert all[0] == front[0] && all[1..] == rest + back;
      ItemsAppend(rest, back);
      if front[0].Member? { Associates([front[0].item], Items(rest), Items(back)); }
    }
  }

  lemma Associates(a: seq<Item>, b: seq<Item>, c: seq<Item>)
    ensures a + b + c == a + (b + c)
  {}

  lemma {:induction false} BrokenStays(tokens: seq<Token>)
    ensures Run(Broken, tokens) == Broken
  {
    if tokens != [] { BrokenStays(tokens[1..]); }
  }

  lemma {:induction false} TriviaIsSilent(s: Expect, tokens: seq<Token>)
    requires Trivia(tokens)
    ensures Run(s, tokens) == s && Items(tokens) == []
    decreases |tokens|
  {
    if tokens != [] { TriviaIsSilent(s, tokens[1..]); }
  }

  // What may follow a comma may also open the container.
  lemma {:induction false} StartLikeAfterComma(tokens: seq<Token>)
    requires !Run(AfterComma, tokens).Broken?
    ensures !Run(Start, tokens).Broken?
    ensures Items(tokens) != [] ==> Run(Start, tokens) == Run(AfterComma, tokens)
  {
    if tokens != [] {
      if tokens[0].Member? {
      } else if tokens[0].Comma? {
        BrokenStays(tokens[1..]);
      } else {
        StartLikeAfterComma(tokens[1..]);
      }
    }
  }

  // Behind a member: nothing but trivia, or trivia around one comma, up to the next member.
  lemma {:induction false} NoItemsRun(tokens: seq<Token>)
    requires Items(tokens) == [] && !Run(AfterItem, tokens).Broken?
    ensures Run(AfterItem, tokens).AfterItem? <==> forall i :: 0 <= i < |tokens| ==> !tokens[i].Comma?
    ensures Run(AfterItem, tokens).AfterItem? ==> Trivia(tokens)
    ensures Run(AfterItem, tokens).AfterItem? || Run(AfterItem, tokens).AfterComma?
  {
    if tokens != [] {
      if tokens[0].Comma? { NoItemsAfterComma(tokens[1..]); } else { NoItemsRun(tokens[1..]); }
    }
  }

  lemma {:induction false} NoItemsAfterComma(tokens: seq<Token>)
    requires Items(tokens) == [] && !Run(AfterComma, tokens).Broken?
    ensures Run(AfterComma, tokens) == AfterComma && Trivia(tokens)
  {
    if tokens != [] {
      if tokens[0].Comma? { BrokenStays(tokens[1..]); }
      NoItemsAfterComma(tokens[1..]);
    }
  }

  lemma {:induction false} NoItemsFromStart(tokens: seq<Token>)
    requires Items(tokens) == [] && !Run(Start, tokens).Broken?
    ensures Run(Start, tokens) == Start && Trivia(tokens)
  {
    if tokens != [] {
      if tokens[0].Comma? { BrokenStays(tokens[1..]); }
      NoItemsFromStart(tokens[1..]);
    }
  }

  // ---------------------------------------------------------------- members by index

  // The token of member `i`.
  function ItemIndex(tokens: seq<Token>, i: nat): (at: nat)
    requires i < |Items(tokens)|
    ensures at < |tokens| && tokens[at].Member? && tokens[at].item == Items(tokens)[i]
  {
    if tokens[0].Member? then (if i == 0 then 0 else 1 + ItemIndex(tokens[1..], i - 1))
    else 1 + ItemIndex(tokens[1..], i)
  }

  lemma ItemsCons(token: Token, rest: seq<Token>)
    ensures Items([token] + rest) == if token.Member? then [token.item] + Items(rest) else Items(rest)
  {
    assert ([token] + rest)[1..] == rest;
  }

  // The tokens around member `i` hold the members around it.
  lemma {:induction false} ItemsBefore(tokens: seq<Token>, i: nat)
    requires i < |Items(tokens)|
    ensures Items(tokens[..ItemIndex(tokens, i)]) == Items(tokens)[..i]
  {
    var head, rest := tokens[0], tokens[1..];
    if head.Member? && i == 0 {
      assert tokens[..0] == [];
    } else {
      var j := if head.Member? then i - 1 else i;
      ItemsBefore(rest, j);
      var m := ItemIndex(rest, j);
      assert ItemIndex(tokens, i) == m + 1;
      assert tokens[..m + 1] == [head] + rest[..m];
      ItemsCons(head, rest[..m]);
      if head.Member? { ConsTake(head.item, Items(rest), j); }
    }
  }

  lemma ConsTake(head: Item, rest: seq<Item>, j: nat)
    requires j <= |rest|
    ensures ([head] + rest)[..j + 1] == [head] + rest[..j]
    ensures ([head] + rest)[j + 1..] == rest[j..]
  {}

  lemma {:induction false} ItemsBehind(tokens: seq<Token>, i: nat)
    requires i < |Items(tokens)|
    ensures Items(tokens[ItemIndex(tokens, i) + 1..]) == Items(tokens)[i + 1..]
  {
    var head, rest := tokens[0], tokens[1..];
    if head.Member? && i == 0 {
      ConsTake(head.item, Items(rest), 0);
    } else {
      var j := if head.Member? then i - 1 else i;
      ItemsBehind(rest, j);
      var m := ItemIndex(rest, j);
      assert ItemIndex(tokens, i) == m + 1;
      assert tokens[m + 2..] == rest[m + 1..];
      if head.Member? { ConsTake(head.item, Items(rest), i); }
    }
  }

  lemma {:induction false} ItemIndexOrdered(tokens: seq<Token>, i: nat, j: nat)
    requires i < j < |Items(tokens)|
    ensures ItemIndex(tokens, i) < ItemIndex(tokens, j)
  {
    if tokens[0].Member? {
      if i > 0 { ItemIndexOrdered(tokens[1..], i - 1, j - 1); }
    } else {
      ItemIndexOrdered(tokens[1..], i, j);
    }
  }

  // The token positions of the members, in order.
  function Children(tokens: seq<Token>): (at: seq<nat>)
    ensures |at| == |Items(tokens)|
    ensures forall i :: 0 <= i < |at| ==>
              at[i] < |tokens| && tokens[at[i]].Member? && tokens[at[i]].item == Items(tokens)[i]
  {
    seq(|Items(tokens)|, i requires 0 <= i < |Items(tokens)| => ItemIndex(tokens, i))
  }

  lemma ItemsUpTo(tokens: seq<Token>, m: nat, p: nat)
    requires m < p <= |tokens| && tokens[m].Member?
    ensures Items(tokens[..p]) == Items(tokens[..m]) + [tokens[m].item] + Items(tokens[m + 1..p])
  {
    assert tokens[..p] == tokens[..m] + ([tokens[m]] + tokens[m + 1..p]);
    ItemsAppend(tokens[..m], [tokens[m]] + tokens[m + 1..p]);
    ItemsCons(tokens[m], tokens[m + 1..p]);
  }

  lemma ItemsSplit(tokens: seq<Token>, p: nat)
    requires p <= |tokens|
    ensures Items(tokens) == Items(tokens[..p]) + Items(tokens[p..])
  {
    assert tokens == tokens[..p] + tokens[p..];
    ItemsAppend(tokens[..p], tokens[p..]);
  }

  // Between member i and the next one (or the end) there is no other member.
  lemma BetweenItems(tokens: seq<Token>, i: nat, p: nat)
    requires i < |Items(tokens)| && ItemIndex(tokens, i) < p <= |tokens|
    requires i + 1 < |Items(tokens)| ==> p <= ItemIndex(tokens, i + 1)
    ensures Items(tokens[ItemIndex(tokens, i) + 1..p]) == []
    ensures Items(tokens[..p]) == Items(tokens)[..i + 1] && Items(tokens[p..]) == Items(tokens)[i + 1..]
  {
    var m := ItemIndex(tokens, i);
    ItemsBefore(tokens, i);
    GapHasNoItems(tokens, i, p);
    ItemsUpTo(tokens, m, p);
    assert Items(tokens[..p]) == Items(tokens)[..i] + [Items(tokens)[i]];
    ItemsSplit(tokens, p);
    TakeDrop(Items(tokens), Items(tokens[..p]), Items(tokens[p..]), i + 1);
  }

  lemma TakeDrop(all: seq<Item>, front: seq<Item>, back: seq<Item>, n: nat)
    requires all == front + back && |front| == n
    ensures front == all[..n] && back == all[n..]
  {}

  lemma GapHasNoItems(tokens: seq<Token>, i: nat, p: nat)
    requires i < |Items(tokens)| && ItemIndex(tokens, i) < p <= |tokens|
    requires i + 1 < |Items(tokens)| ==> p <= ItemIndex(tokens, i + 1)
    ensures Items(tokens[ItemIndex(tokens, i) + 1..p]) == []
  {
    var m := ItemIndex(tokens, i);
    if i + 1 < |Items(tokens)| {
      var n := ItemIndex(tokens, i + 1);
      WholeGapHasNoItems(tokens, i, m, n);
      PartHasNoItems(tokens, m + 1, p, n);
    } else {
      ItemsBehind(tokens, i);
      SubSlice(tokens, m + 1, p, |tokens|);
      PartHasNoItems(tokens, m + 1, p, |tokens|);
    }
  }

  lemma PartHasNoItems(tokens: seq<Token>, a: nat, p: nat, q: nat)
    requires a <= p <= q <= |tokens| && Items(tokens[a..q]) == []
    ensures Items(tokens[a..p]) == []
  {
    SubSlice(tokens, a, p, q);
    ItemsSplit(tokens[a..q], p - a);
  }

  lemma WholeGapHasNoItems(tokens: seq<Token>, i: nat, m: nat, n: nat)
    requires i + 1 < |Items(tokens)| && m == ItemIndex(tokens, i) < n == ItemIndex(tokens, i + 1)
    ensures Items(tokens[m + 1..n]) == []
  {
    ItemsBefore(tokens, i);
    ItemsBefore(tokens, i + 1);
    ItemsUpTo(tokens, m, n);
    assert |Items(tokens[m + 1..n])| == 0;
  }

  lemma SubSlice(tokens: seq<Token>, a: nat, p: nat, q: nat)
    requires a <= p <= q <= |tokens|
    ensures tokens[a..q][..p - a] == tokens[a..p] && tokens[a..q][p - a..] == tokens[p..q]
    ensures q == |tokens| ==> tokens[a..q] == tokens[a..]
  {}

  // Before member 0 there is no other member.
  lemma BeforeItems(tokens: seq<Token>, p: nat)
    requires p <= |tokens| && (Items(tokens) != [] ==> p <= ItemIndex(tokens, 0))
    ensures Items(tokens[..p]) == [] && Items(tokens[p..]) == Items(tokens)
  {
    if Items(tokens) != [] {
      var m := ItemIndex(tokens, 0);
      ItemsBefore(tokens, 0);
      assert tokens[..m][..p] == tokens[..p];
      ItemsSplit(tokens[..m], p);
    }
    ItemsSplit(tokens, p);
  }

  lemma RunSplit(s: Expect, tokens: seq<Token>, p: nat)
    requires p <= |tokens|
    ensures Run(s, tokens) == Run(Run(s, tokens[..p]), tokens[p..])
    ensures !Run(s, tokens).Broken? ==> !Run(s, tokens[..p]).Broken?
  {
    assert tokens == tokens[..p] + tokens[p..];
    RunAppend(s, tokens[..p], tokens[p..]);
    BrokenStays(tokens[p..]);
  }

  lemma RunStep(s: Expect, tokens: seq<Token>, p: nat)
    requires p < |tokens|
    ensures Run(s, tokens[..p + 1]) == Feed(Run(s, tokens[..p]), tokens[p])
  {
    assert tokens[..p + 1] == tokens[..p] + [tokens[p]];
    RunAppend(s, tokens[..p], [tokens[p]]);
    assert [tokens[p]][1..] == [];
  }

  // The state of a well-formed container in front of member `i`, and behind it.
  lemma StateAtItem(tokens: seq<Token>, i: nat)
    requires WellFormed(tokens) && i < |Items(tokens)|
    ensures Run(Start, tokens[..ItemIndex(tokens, i)]) == (if i == 0 then Start else AfterComma)
    ensures Run(Start, tokens[..ItemIndex(tokens, i) + 1]) == AfterItem
  {
    var m := ItemIndex(tokens, i);
    RunSplit(Start, tokens, m + 1);
    RunSplit(Start, tokens, m);
    RunStep(Start, tokens, m);
    ItemsBefore(tokens, i);
    if i == 0 {
      NoItemsFromStart(tokens[..m]);
    } else if Run(Start, tokens[..m]).Start? {
      StartMeansNoItems(tokens[..m]);
    }
  }

  lemma {:induction false} StartMeansNoItems(tokens: seq<Token>)
    requires Run(Start, tokens).Start?
    ensures Items(tokens) == []
  {
    if tokens != [] {
      if tokens[0].Member? {
        NeverStartAgain(AfterItem, tokens[1..]);
      } else if tokens[0].Comma? {
        BrokenStays(tokens[1..]);
      } else {
        StartMeansNoItems(tokens[1..]);
      }
    }
  }

  lemma {:induction false} NeverStartAgain(s: Expect, tokens: seq<Token>)
    requires !s.Start?
    ensures !Run(s, tokens).Start?
    decreases |tokens|
  {
    if tokens != [] { NeverStartAgain(Feed(s, tokens[0]), tokens[1..]); }
  }

  // ---------------------------------------------------------------- stretches of tokens

  // From expecting `s`, the tokens lead to expecting `e`, and no comment is left open.
  ghost predicate Flows(s: Expect, tokens: seq<Token>, e: Expect) {
    Run(s, tokens) == e && !e.Broken? && Closed(tokens)
  }

  lemma FlowsOn(s: Expect, front: seq<Token>, m: Expect, back: seq<Token>, e: Expect)
    requires Flows(s, front, m) && Flows(m, back, e)
    ensures Flows(s, front + back, e)
    ensures Items(front + back) == Items(front) + Items(back)
  {
    RunAppend(s, front, back);
    ItemsAppend(front, back);
    var all := front + back;
    forall i: nat | i < |all| ensures ClosedAt(all, i) {
      if i < |front| { assert ClosedAt(front, i); } else { assert ClosedAt(back, i - |front|); }
    }
  }

  ghost predicate Cut(tokens: seq<Token>, q: nat) {
    q <= |tokens| && (0 < q < |tokens| ==> !tokens[q - 1].LineComment?)
  }

  function Before(tokens: seq<Token>, p: nat): Expect
    requires p <= |tokens|
  {
    Run(Start, tokens[..p])
  }

  lemma SliceFlows(tokens: seq<Token>, p: nat, q: nat)
    requires WellFormed(tokens) && p <= q && Cut(tokens, q)
    ensures Flows(Before(tokens, p), tokens[p..q], Before(tokens, q))
  {
    RunSplit(Start, tokens, q);
    assert tokens[..q][..p] == tokens[..p] && tokens[..q][p..] == tokens[p..q];
    RunSplit(Start, tokens[..q], p);
    forall i: nat | i < q - p ensures ClosedAt(tokens[p..q], i) {
      assert ClosedAt(tokens, p + i);
    }
  }

  lemma EndFlows(tokens: seq<Token>, p: nat)
    requires WellFormed(tokens) && p <= |tokens|
    ensures Flows(Before(tokens, p), tokens[p..], Run(Start, tokens))
  {
    assert tokens[..|tokens|] == tokens && tokens[p..|tokens|] == tokens[p..];
    SliceFlows(tokens, p, |tokens|);
  }

  lemma FrontFlows(tokens: seq<Token>, q: nat)
    requires WellFormed(tokens) && Cut(tokens, q)
    ensures Flows(Start, tokens[..q], Before(tokens, q))
  {
    assert tokens[..0] == [] && tokens[0..q] == tokens[..q];
    SliceFlows(tokens, 0, q);
  }

  // Whatever may follow a comma may open the container as well.
  lemma AlsoFromStart(tokens: seq<Token>, e: Expect)
    requires Flows(AfterComma, tokens, e)
    ensures exists e' :: Flows(Start, tokens, e')
  {
    StartLikeAfterComma(tokens);
    assert Flows(Start, tokens, Run(Start, tokens));
  }
}

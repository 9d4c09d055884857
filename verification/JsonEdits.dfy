// Format-preserving edits of one container, and the plain list edits they amount to.
module JsonEdits {
  import opened Prelude
  import opened JsonTokens
  import opened JsonLayout
  import Sequences

  // ---------------------------------------------------------------- states around members

  lemma ChildrenAreChildren(tokens: seq<Token>)
    ensures AreChildren(tokens, Children(tokens))
  {
    forall i: nat, j: nat | i < j < |Children(tokens)| ensures Children(tokens)[i] < Children(tokens)[j] {
      ItemIndexOrdered(tokens, i, j);
    }
  }

  function Layout(tokens: seq<Token>): Option<seq<MemberLine>> {
    ChildrenAreChildren(tokens);
    LineLayout(tokens, Children(tokens))
  }

  lemma {:induction false} NoMembers(tokens: seq<Token>)
    requires Items(tokens) == []
    ensures forall k :: 0 <= k < |tokens| ==> !tokens[k].Member?
  {
    if tokens != [] { NoMembers(tokens[1..]); }
  }

  // Stretches without members and commas leave the state alone.
  lemma QuietBetween(tokens: seq<Token>, p: nat, q: nat)
    requires p <= q <= |tokens| && Items(tokens[p..q]) == [] && NoComma(tokens, p, q)
    ensures Before(tokens, q) == Before(tokens, p)
  {
    NoMembers(tokens[p..q]);
    assert Trivia(tokens[p..q]) by {
      forall k | 0 <= k < q - p ensures !tokens[p..q][k].Member? && !tokens[p..q][k].Comma? {
        assert tokens[p..q][k] == tokens[p + k] && NotComma(tokens, p + k);
      }
    }
    TriviaBetween(tokens, p, q);
  }

  lemma TriviaBetween(tokens: seq<Token>, p: nat, q: nat)
    requires p <= q <= |tokens| && Trivia(tokens[p..q])
    ensures Before(tokens, q) == Before(tokens, p)
  {
    assert tokens[..q] == tokens[..p] + tokens[p..q];
    RunAppend(Start, tokens[..p], tokens[p..q]);
    TriviaIsSilent(Before(tokens, p), tokens[p..q]);
  }

  lemma QuietAfterComma(tokens: seq<Token>, p: nat, q: nat)
    requires WellFormed(tokens) && p <= q <= |tokens| && Items(tokens[p..q]) == [] && Before(tokens, p).AfterComma?
    ensures Before(tokens, q).AfterComma?
  {
    assert tokens[..q] == tokens[..p] + tokens[p..q];
    RunAppend(Start, tokens[..p], tokens[p..q]);
    RunSplit(Start, tokens, q);
    NoItemsAfterComma(tokens[p..q]);
  }

  lemma GapWithin(tokens: seq<Token>, i: nat, p: nat, q: nat)
    requires i < |Items(tokens)| && ItemIndex(tokens, i) < p <= q <= |tokens|
    requires i + 1 < |Items(tokens)| ==> q <= ItemIndex(tokens, i + 1)
    ensures Items(tokens[p..q]) == []
  {
    var m := ItemIndex(tokens, i);
    GapHasNoItems(tokens, i, q);
    SubSlice(tokens, m + 1, p, q);
    ItemsSplit(tokens[m + 1..q], p - m - 1);
  }

  function NextIndex(tokens: seq<Token>, i: nat): nat
    requires i < |Items(tokens)|
  {
    if i + 1 < |Items(tokens)| then ItemIndex(tokens, i + 1) else |tokens|
  }

  ghost predicate Owns(tokens: seq<Token>, i: nat, line: MemberLine) {
    && i < |Items(tokens)|
    && line.leadStart <= ItemIndex(tokens, i)
    && IsLine(tokens, ItemIndex(tokens, i), NextIndex(tokens, i), i + 1 == |Items(tokens)|, line)
  }

  // Member `i` owns line `i`, which starts where the line before it ends.
  ghost predicate LaidAt(tokens: seq<Token>, lines: seq<MemberLine>, i: nat) {
    && i < |lines|
    && Owns(tokens, i, lines[i])
    && (i > 0 ==> lines[i].leadStart == lines[i - 1].newline + 1)
  }

  ghost predicate Laid(tokens: seq<Token>, lines: seq<MemberLine>) {
    && |lines| == |Items(tokens)| > 0
    && (forall i: nat :: i < |lines| ==> LaidAt(tokens, lines, i))
    && 0 < lines[0].leadStart <= |tokens| && tokens[lines[0].leadStart - 1].Newline?
  }

  lemma LayoutIsLaid(tokens: seq<Token>, lines: seq<MemberLine>)
    requires Layout(tokens) == Some(lines)
    ensures Laid(tokens, lines)
  {
    ChildrenAreChildren(tokens);
    var children := Children(tokens);
    LayoutIsExact(tokens, children, lines);
    forall i: nat | i < |lines| ensures LaidAt(tokens, lines, i) {
      assert MemberHasLine(tokens, children, lines, i);
      if i > 0 { assert MemberHasLine(tokens, children, lines, i - 1); }
    }
  }

  ghost predicate CommaIn(tokens: seq<Token>, m: nat, c: nat, newline: nat) {
    && m < c < newline < |tokens| && tokens[c].Comma?
    && Before(tokens, c).AfterItem? && Before(tokens, c + 1).AfterComma?
  }

  lemma CommaState(tokens: seq<Token>, i: nat, line: MemberLine)
    requires WellFormed(tokens) && Owns(tokens, i, line) && line.comma.Some?
    ensures CommaIn(tokens, ItemIndex(tokens, i), line.comma.value, line.newline)
  {
    var m, c := ItemIndex(tokens, i), line.comma.value;
    StateAtItem(tokens, i);
    GapWithin(tokens, i, m + 1, c);
    QuietBetween(tokens, m + 1, c);
    RunStep(Start, tokens, c);
  }

  lemma BehindComma(tokens: seq<Token>, i: nat, line: MemberLine)
    requires WellFormed(tokens) && Owns(tokens, i, line) && line.comma.Some?
    ensures Before(tokens, line.newline + 1).AfterComma?
  {
    CommaState(tokens, i, line);
    GapWithin(tokens, i, line.comma.value + 1, line.newline + 1);
    QuietAfterComma(tokens, line.comma.value + 1, line.newline + 1);
  }

  lemma NoCommaState(tokens: seq<Token>, i: nat, line: MemberLine)
    requires WellFormed(tokens) && Owns(tokens, i, line) && line.comma.None?
    ensures Before(tokens, line.newline + 1).AfterItem?
  {
    var m, end := ItemIndex(tokens, i), line.newline + 1;
    StateAtItem(tokens, i);
    GapWithin(tokens, i, m + 1, end);
    QuietBetween(tokens, m + 1, end);
  }

  lemma StateBehind(tokens: seq<Token>, i: nat, line: MemberLine)
    requires WellFormed(tokens) && Owns(tokens, i, line)
    ensures Before(tokens, line.newline + 1) == if line.comma.Some? then AfterComma else AfterItem
  {
    if line.comma.Some? { BehindComma(tokens, i, line); } else { NoCommaState(tokens, i, line); }
  }

  lemma ItemsAroundLine(tokens: seq<Token>, i: nat, line: MemberLine)
    requires Owns(tokens, i, line)
    ensures Items(tokens[..line.newline + 1]) == Items(tokens)[..i + 1]
    ensures Items(tokens[line.newline + 1..]) == Items(tokens)[i + 1..]
  {
    BetweenItems(tokens, i, line.newline + 1);
  }

  // The state and the members in front of member `i`'s lines.
  lemma StateInFront(tokens: seq<Token>, lines: seq<MemberLine>, i: nat)
    requires WellFormed(tokens) && Laid(tokens, lines) && i < |lines| && lines[i].leadStart <= |tokens|
    ensures Before(tokens, lines[i].leadStart) == if i == 0 then Start else AfterComma
  {
    assert LaidAt(tokens, lines, i);
    if i == 0 {
      BeforeItems(tokens, lines[i].leadStart);
      RunSplit(Start, tokens, lines[i].leadStart);
      NoItemsFromStart(tokens[..lines[i].leadStart]);
    } else {
      assert LaidAt(tokens, lines, i - 1);
      StateBehind(tokens, i - 1, lines[i - 1]);
    }
  }

  lemma CutInFront(tokens: seq<Token>, lines: seq<MemberLine>, i: nat)
    requires Laid(tokens, lines) && i < |lines|
    ensures Cut(tokens, lines[i].leadStart)
  {
    assert LaidAt(tokens, lines, i);
    if i > 0 { assert LaidAt(tokens, lines, i - 1); }
  }

  lemma ItemsInFront(tokens: seq<Token>, lines: seq<MemberLine>, i: nat)
    requires Laid(tokens, lines) && i < |lines| && lines[i].leadStart <= |tokens|
    ensures Items(tokens[..lines[i].leadStart]) == Items(tokens)[..i]
  {
    assert LaidAt(tokens, lines, i);
    if i == 0 {
      BeforeItems(tokens, lines[i].leadStart);
    } else {
      assert LaidAt(tokens, lines, i - 1);
      ItemsAroundLine(tokens, i - 1, lines[i - 1]);
    }
  }

  // ---------------------------------------------------------------- removing a member

  function Dropped(tokens: seq<Token>, p: nat, q: nat): seq<Token>
    requires p <= q <= |tokens|
  {
    tokens[..p] + tokens[q..]
  }

  lemma DropStretch(tokens: seq<Token>, p: nat, q: nat)
    requires WellFormed(tokens) && Cut(tokens, p) && p <= q <= |tokens|
    requires Before(tokens, p) == Before(tokens, q) || (Before(tokens, p).Start? && Before(tokens, q).AfterComma?)
    ensures WellFormed(Dropped(tokens, p, q))
    ensures Items(Dropped(tokens, p, q)) == Items(tokens[..p]) + Items(tokens[q..])
  {
    FrontFlows(tokens, p);
    EndFlows(tokens, q);
    if Before(tokens, p) != Before(tokens, q) { AlsoFromStart(tokens[q..], Run(Start, tokens)); }
    FlowsOn(Start, tokens[..p], Before(tokens, p), tokens[q..], Run(Before(tokens, p), tokens[q..]));
  }

  // The comma that the new last member would be left with.
  function PreviousComma(lines: seq<MemberLine>, i: nat): Option<nat>
    requires i < |lines|
  {
    if 0 < i == |lines| - 1 && lines[i].comma.None? then lines[i - 1].comma else None
  }

  function RemoveLine(tokens: seq<Token>, lines: seq<MemberLine>, i: nat): seq<Token>
    requires Laid(tokens, lines) && i < |lines|
  {
    assert LaidAt(tokens, lines, i);
    var rest := Dropped(tokens, lines[i].leadStart, lines[i].newline + 1);
    match PreviousComma(lines, i)
    case None => rest
    case Some(c) =>
      assert LaidAt(tokens, lines, i - 1);
      Dropped(rest, c, c + 1)
  }

  // Outside the line layout, the text up to the neighbouring member goes.
  function RemoveInRow(tokens: seq<Token>, i: nat): seq<Token>
    requires i < |Items(tokens)| && |Items(tokens)| > 1
  {
    if i + 1 < |Items(tokens)| then
      ItemIndexOrdered(tokens, i, i + 1);
      Dropped(tokens, ItemIndex(tokens, i), ItemIndex(tokens, i + 1))
    else
      ItemIndexOrdered(tokens, i - 1, i);
      Dropped(tokens, ItemIndex(tokens, i - 1) + 1, ItemIndex(tokens, i) + 1)
  }

  // Removes member `i` with its separator; nothing stays inside around the only member.
  function RemoveAt(tokens: seq<Token>, i: nat): seq<Token>
    requires i < |Items(tokens)|
  {
    if |Items(tokens)| == 1 then []
    else
      match Layout(tokens)
      case Some(lines) =>
        LayoutIsLaid(tokens, lines);
        RemoveLine(tokens, lines, i)
      case None => RemoveInRow(tokens, i)
  }

  lemma DropOwnLine(tokens: seq<Token>, lines: seq<MemberLine>, i: nat)
    requires WellFormed(tokens) && Laid(tokens, lines) && i < |lines| && lines[i].comma.Some?
    requires lines[i].leadStart <= lines[i].newline < |tokens|
    ensures WellFormed(Dropped(tokens, lines[i].leadStart, lines[i].newline + 1))
    ensures Items(Dropped(tokens, lines[i].leadStart, lines[i].newline + 1))
         == Items(tokens[..lines[i].leadStart]) + Items(tokens[lines[i].newline + 1..])
  {
    assert LaidAt(tokens, lines, i);
    StateInFront(tokens, lines, i);
    StateBehind(tokens, i, lines[i]);
    CutInFront(tokens, lines, i);
    DropStretch(tokens, lines[i].leadStart, lines[i].newline + 1);
  }

  lemma RemoveOwnLine(tokens: seq<Token>, lines: seq<MemberLine>, i: nat)
    requires WellFormed(tokens) && Laid(tokens, lines) && i < |lines| && lines[i].comma.Some?
    requires lines[i].leadStart <= lines[i].newline < |tokens|
    ensures WellFormed(Dropped(tokens, lines[i].leadStart, lines[i].newline + 1))
    ensures Items(Dropped(tokens, lines[i].leadStart, lines[i].newline + 1)) == Sequences.Without(Items(tokens), i)
  {
    assert LaidAt(tokens, lines, i);
    DropOwnLine(tokens, lines, i);
    ItemsInFront(tokens, lines, i);
    ItemsAroundLine(tokens, i, lines[i]);
  }

  // A stretch without members that starts behind a comma may as well follow the member itself.
  lemma TriviaAfterItem(tokens: seq<Token>, p: nat, q: nat)
    requires WellFormed(tokens) && p <= q && Cut(tokens, q) && Items(tokens[p..q]) == []
             && Before(tokens, p).AfterComma?
    ensures Flows(AfterItem, tokens[p..q], AfterItem)
  {
    SliceFlows(tokens, p, q);
    NoItemsAfterComma(tokens[p..q]);
    TriviaIsSilent(AfterItem, tokens[p..q]);
  }

  lemma DropCommaAndStretch(tokens: seq<Token>, c: nat, p: nat, q: nat)
    requires WellFormed(tokens) && c < p <= q <= |tokens| && Cut(tokens, p) && tokens[c].Comma?
    requires Before(tokens, c).AfterItem? && Before(tokens, c + 1).AfterComma? && Before(tokens, q).AfterItem?
    requires Items(tokens[c + 1..p]) == []
    ensures WellFormed(tokens[..c] + tokens[c + 1..p] + tokens[q..])
    ensures Items(tokens[..c] + tokens[c + 1..p] + tokens[q..]) == Items(tokens[..c]) + Items(tokens[q..])
  {
    assert Cut(tokens, c) by { if c > 0 { assert ClosedAt(tokens, c - 1); } }
    FrontFlows(tokens, c);
    TriviaAfterItem(tokens, c + 1, p);
    EndFlows(tokens, q);
    FlowsOn(Start, tokens[..c], AfterItem, tokens[c + 1..p], AfterItem);
    FlowsOn(Start, tokens[..c] + tokens[c + 1..p], AfterItem, tokens[q..], Run(Start, tokens));
  }

  lemma DropTwice(tokens: seq<Token>, c: nat, p: nat, q: nat)
    requires c < p <= q <= |tokens|
    ensures Dropped(Dropped(tokens, p, q), c, c + 1) == tokens[..c] + tokens[c + 1..p] + tokens[q..]
  {
    var rest := tokens[..p] + tokens[q..];
    assert rest[..c] == tokens[..c] && rest[c + 1..] == tokens[c + 1..p] + tokens[q..];
  }

  lemma RemoveLastLine(tokens: seq<Token>, lines: seq<MemberLine>, i: nat, c: nat)
    requires WellFormed(tokens) && Laid(tokens, lines) && 0 < i == |lines| - 1 && lines[i].comma.None?
    requires lines[i - 1].comma == Some(c) && c < lines[i].leadStart <= lines[i].newline < |tokens|
    ensures var rest := tokens[..c] + tokens[c + 1..lines[i].leadStart] + tokens[lines[i].newline + 1..];
            WellFormed(rest) && Items(rest) == Items(tokens[..c]) + Items(tokens[lines[i].newline + 1..])
  {
    var line, previous := lines[i], lines[i - 1];
    assert LaidAt(tokens, lines, i) && LaidAt(tokens, lines, i - 1);
    CommaState(tokens, i - 1, previous);
    StateBehind(tokens, i, line);
    CutInFront(tokens, lines, i);
    GapWithin(tokens, i - 1, c + 1, line.leadStart);
    DropCommaAndStretch(tokens, c, line.leadStart, line.newline + 1);
  }

  lemma LastLineBounds(tokens: seq<Token>, lines: seq<MemberLine>, i: nat, c: nat)
    requires Laid(tokens, lines) && 0 < i == |lines| - 1 && lines[i - 1].comma == Some(c)
    ensures Owns(tokens, i, lines[i]) && ItemIndex(tokens, i - 1) < c < ItemIndex(tokens, i)
    ensures c < lines[i].leadStart <= lines[i].newline < |tokens|
  {
    assert LaidAt(tokens, lines, i) && LaidAt(tokens, lines, i - 1);
  }

  lemma ItemsAroundLastLine(tokens: seq<Token>, i: nat, line: MemberLine, c: nat)
    requires Owns(tokens, i, line) && 0 < i == |Items(tokens)| - 1
    requires ItemIndex(tokens, i - 1) < c < ItemIndex(tokens, i)
    ensures Items(tokens[..c]) + Items(tokens[line.newline + 1..]) == Sequences.Without(Items(tokens), i)
  {
    BetweenItems(tokens, i - 1, c);
    ItemsAroundLine(tokens, i, line);
  }

  lemma RemoveUncommaedLine(tokens: seq<Token>, lines: seq<MemberLine>, i: nat, c: nat)
    requires WellFormed(tokens) && Laid(tokens, lines) && 0 < i == |lines| - 1 && lines[i].comma.None?
    requires lines[i - 1].comma == Some(c)
    ensures WellFormed(RemoveLine(tokens, lines, i))
    ensures Items(RemoveLine(tokens, lines, i)) == Sequences.Without(Items(tokens), i)
  {
    LastLineBounds(tokens, lines, i, c);
    RemoveLastLine(tokens, lines, i, c);
    ItemsAroundLastLine(tokens, i, lines[i], c);
    RemoveLineTwice(tokens, lines, i, c);
  }

  lemma RemoveLineTwice(tokens: seq<Token>, lines: seq<MemberLine>, i: nat, c: nat)
    requires Laid(tokens, lines) && 0 < i == |lines| - 1 && lines[i].comma.None? && lines[i - 1].comma == Some(c)
    requires c < lines[i].leadStart <= lines[i].newline < |tokens|
    ensures RemoveLine(tokens, lines, i)
         == tokens[..c] + tokens[c + 1..lines[i].leadStart] + tokens[lines[i].newline + 1..]
  {
    DropTwice(tokens, c, lines[i].leadStart, lines[i].newline + 1);
  }

  lemma RemoveLineRemoves(tokens: seq<Token>, lines: seq<MemberLine>, i: nat)
    requires WellFormed(tokens) && Laid(tokens, lines) && i < |lines| && |lines| > 1
    ensures WellFormed(RemoveLine(tokens, lines, i))
    ensures Items(RemoveLine(tokens, lines, i)) == Sequences.Without(Items(tokens), i)
  {
    assert LaidAt(tokens, lines, i);
    if lines[i].comma.Some? {
      assert PreviousComma(lines, i).None?;
      RemoveOwnLine(tokens, lines, i);
    } else {
      assert LaidAt(tokens, lines, i - 1);
      RemoveUncommaedLine(tokens, lines, i, lines[i - 1].comma.value);
    }
  }

  lemma CutAtItem(tokens: seq<Token>, i: nat)
    requires WellFormed(tokens) && i < |Items(tokens)|
    ensures Cut(tokens, ItemIndex(tokens, i)) && Cut(tokens, ItemIndex(tokens, i) + 1)
  {
    var m := ItemIndex(tokens, i);
    if m > 0 { assert ClosedAt(tokens, m - 1); }
  }

  lemma RemoveInner(tokens: seq<Token>, i: nat, p: nat, q: nat)
    requires WellFormed(tokens) && i + 1 < |Items(tokens)| && p == ItemIndex(tokens, i) < q == ItemIndex(tokens, i + 1)
    ensures WellFormed(Dropped(tokens, p, q))
    ensures Items(Dropped(tokens, p, q)) == Sequences.Without(Items(tokens), i)
  {
    StateAtItem(tokens, i);
    StateAtItem(tokens, i + 1);
    CutAtItem(tokens, i);
    DropStretch(tokens, p, q);
    ItemsBefore(tokens, i);
    BetweenItems(tokens, i, q);
  }

  lemma RemoveOuter(tokens: seq<Token>, i: nat, p: nat, q: nat)
    requires WellFormed(tokens) && 0 < i == |Items(tokens)| - 1
    requires p == ItemIndex(tokens, i - 1) + 1 < q == ItemIndex(tokens, i) + 1
    ensures WellFormed(Dropped(tokens, p, q))
    ensures Items(Dropped(tokens, p, q)) == Sequences.Without(Items(tokens), i)
  {
    StateAtItem(tokens, i - 1);
    StateAtItem(tokens, i);
    CutAtItem(tokens, i - 1);
    DropStretch(tokens, p, q);
    BetweenItems(tokens, i - 1, p);
    ItemsBehind(tokens, i);
  }

  lemma RemoveInRowRemoves(tokens: seq<Token>, i: nat)
    requires WellFormed(tokens) && i < |Items(tokens)| && |Items(tokens)| > 1
    ensures WellFormed(RemoveInRow(tokens, i))
    ensures Items(RemoveInRow(tokens, i)) == Sequences.Without(Items(tokens), i)
  {
    if i + 1 < |Items(tokens)| {
      ItemIndexOrdered(tokens, i, i + 1);
      RemoveInner(tokens, i, ItemIndex(tokens, i), ItemIndex(tokens, i + 1));
    } else {
      ItemIndexOrdered(tokens, i - 1, i);
      RemoveOuter(tokens, i, ItemIndex(tokens, i - 1) + 1, ItemIndex(tokens, i) + 1);
    }
  }

  // The text stays a container, and its members are the others in order.
  lemma RemoveAtRemoves(tokens: seq<Token>, i: nat)
    requires WellFormed(tokens) && i < |Items(tokens)|
    ensures WellFormed(RemoveAt(tokens, i))
    ensures Items(RemoveAt(tokens, i)) == Sequences.Without(Items(tokens), i)
  {
    if |Items(tokens)| > 1 {
      match Layout(tokens)
      case Some(lines) =>
        LayoutIsLaid(tokens, lines);
        RemoveLineRemoves(tokens, lines, i);
      case None =>
        RemoveInRowRemoves(tokens, i);
    }
  }
}

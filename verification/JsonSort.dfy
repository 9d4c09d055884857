// Ordering an object's members by key: each member keeps the text that leads to it, the
// separators stay in place.
module JsonSort {
  import opened Prelude
  import opened JsonTokens
  import opened JsonLayout
  import opened JsonEdits
  import opened JsonInserts
  import Sorting

  function Key(item: Item): string {
    if item.key.Some? then item.key.value else ""
  }

  predicate KeyLe(a: Item, b: Item) {
    Sorting.LexLe(Sorting.CodePoints(Key(a)), Sorting.CodePoints(Key(b)))
  }

  // A member with the text in front of it and, in the line layout, behind it.
  datatype Piece = Piece(lead: seq<Token>, item: Item, tail: seq<Token>)

  predicate PieceLe(a: Piece, b: Piece) {
    KeyLe(a.item, b.item)
  }

  function ItemOf(p: Piece): Item {
    p.item
  }

  // ---------------------------------------------------------------- in a row

  // Where member `i`'s separator starts and ends.
  function PreviousEnd(tokens: seq<Token>, i: nat): (at: nat)
    requires i < |Items(tokens)|
    ensures at <= ItemIndex(tokens, i)
  {
    if i == 0 then 0 else
      ItemIndexOrdered(tokens, i - 1, i);
      ItemIndex(tokens, i - 1) + 1
  }

  function LeadStart(tokens: seq<Token>, i: nat): (at: nat)
    requires i < |Items(tokens)|
    ensures PreviousEnd(tokens, i) <= at <= ItemIndex(tokens, i)
  {
    var start := PreviousEnd(tokens, i);
    if i == 0 then start
    else
      var comma := FirstComma(tokens, start, ItemIndex(tokens, i));
      if comma.Some? then comma.value + 1 else start
  }

  function RowPieces(tokens: seq<Token>, i: nat): (pieces: seq<Piece>)
    requires i <= |Items(tokens)|
    ensures |pieces| == |Items(tokens)| - i
    decreases |Items(tokens)| - i
  {
    if i == |Items(tokens)| then []
    else [Piece(tokens[LeadStart(tokens, i)..ItemIndex(tokens, i)], Items(tokens)[i], [])] + RowPieces(tokens, i + 1)
  }

  function Separators(tokens: seq<Token>, i: nat): (separators: seq<seq<Token>>)
    requires i <= |Items(tokens)|
    ensures |separators| == |Items(tokens)| - i
    decreases |Items(tokens)| - i
  {
    if i == |Items(tokens)| then []
    else [tokens[PreviousEnd(tokens, i)..LeadStart(tokens, i)]] + Separators(tokens, i + 1)
  }

  function RenderRow(separators: seq<seq<Token>>, pieces: seq<Piece>): seq<Token>
    requires |separators| == |pieces|
  {
    if pieces == [] then []
    else separators[0] + pieces[0].lead + [Member(pieces[0].item)] + RenderRow(separators[1..], pieces[1..])
  }

  // ---------------------------------------------------------------- line by line

  function Tail(tokens: seq<Token>, m: nat, line: MemberLine): seq<Token>
    requires m < line.newline < |tokens| && (line.comma.Some? ==> m < line.comma.value < line.newline)
  {
    if line.comma.Some? then tokens[m + 1..line.comma.value] + tokens[line.comma.value + 1..line.newline]
    else tokens[m + 1..line.newline]
  }

  function LinePieces(tokens: seq<Token>, lines: seq<MemberLine>, i: nat): (pieces: seq<Piece>)
    requires Laid(tokens, lines) && i <= |lines|
    ensures |pieces| == |lines| - i
    decreases |lines| - i
  {
    if i == |lines| then []
    else
      assert LaidAt(tokens, lines, i);
      var m := ItemIndex(tokens, i);
      [Piece(tokens[lines[i].leadStart..m], Items(tokens)[i], Tail(tokens, m, lines[i]))]
          + LinePieces(tokens, lines, i + 1)
  }

  function LineEnds(tokens: seq<Token>, lines: seq<MemberLine>, i: nat): (ends: seq<Token>)
    requires Laid(tokens, lines) && i <= |lines|
    ensures |ends| == |lines| - i && forall k :: 0 <= k < |ends| ==> ends[k].Newline?
    decreases |lines| - i
  {
    if i == |lines| then []
    else
      assert LaidAt(tokens, lines, i);
      [tokens[lines[i].newline]] + LineEnds(tokens, lines, i + 1)
  }

  function RenderLine(p: Piece, comma: bool, end: Token): seq<Token> {
    p.lead + [Member(p.item)] + (if comma then [Comma] else []) + p.tail + [end]
  }

  function RenderLines(pieces: seq<Piece>, ends: seq<Token>, trailing: bool): seq<Token>
    requires |pieces| == |ends|
  {
    if pieces == [] then []
    else RenderLine(pieces[0], |pieces| > 1 || trailing, ends[0]) + RenderLines(pieces[1..], ends[1..], trailing)
  }

  function SortLines(tokens: seq<Token>, lines: seq<MemberLine>): seq<Token>
    requires Laid(tokens, lines)
  {
    assert LaidAt(tokens, lines, |lines| - 1);
    var last := lines[|lines| - 1];
    var sorted := Sorting.StableSort(PieceLe, LinePieces(tokens, lines, 0));
    tokens[..lines[0].leadStart] + RenderLines(sorted, LineEnds(tokens, lines, 0), last.comma.Some?)
        + tokens[last.newline + 1..]
  }

  function SortRow(tokens: seq<Token>): seq<Token>
    requires Items(tokens) != []
  {
    var sorted := Sorting.StableSort(PieceLe, RowPieces(tokens, 0));
    RenderRow(Separators(tokens, 0), sorted) + tokens[ItemIndex(tokens, |Items(tokens)| - 1) + 1..]
  }

  function SortMembers(tokens: seq<Token>): seq<Token> {
    if Items(tokens) == [] then tokens
    else
      match Layout(tokens)
      case Some(lines) =>
        LayoutIsLaid(tokens, lines);
        SortLines(tokens, lines)
      case None => SortRow(tokens)
  }

  // ---------------------------------------------------------------- pieces carry their members

  lemma PieceOrder()
    ensures Sorting.Through(KeyLe, ItemOf, PieceLe)
  {}

  lemma {:induction false} RowPiecesCarry(tokens: seq<Token>, i: nat)
    requires i <= |Items(tokens)|
    ensures Sorting.Mapped(ItemOf, RowPieces(tokens, i)) == Items(tokens)[i..]
    decreases |Items(tokens)| - i
  {
    if i < |Items(tokens)| {
      RowPiecesCarry(tokens, i + 1);
      Sorting.MappedCons(ItemOf, RowPieces(tokens, i)[0], RowPieces(tokens, i + 1));
    }
  }

  lemma {:induction false} LinePiecesCarry(tokens: seq<Token>, lines: seq<MemberLine>, i: nat)
    requires Laid(tokens, lines) && i <= |lines|
    ensures Sorting.Mapped(ItemOf, LinePieces(tokens, lines, i)) == Items(tokens)[i..]
    decreases |lines| - i
  {
    if i < |lines| {
      LinePiecesCarry(tokens, lines, i + 1);
      Sorting.MappedCons(ItemOf, LinePieces(tokens, lines, i)[0], LinePieces(tokens, lines, i + 1));
    }
  }

  lemma SortedPiecesCarry(pieces: seq<Piece>, items: seq<Item>)
    requires Sorting.Mapped(ItemOf, pieces) == items
    ensures Sorting.Mapped(ItemOf, Sorting.StableSort(PieceLe, pieces)) == Sorting.StableSort(KeyLe, items)
  {
    PieceOrder();
    Sorting.SortMapped(KeyLe, ItemOf, PieceLe, pieces);
  }

  // ---------------------------------------------------------------- pieces fit anywhere

  // Trivia that leaves no comment open.
  ghost predicate Quiet(tokens: seq<Token>) {
    Trivia(tokens) && Closed(tokens)
  }

  // Trivia that a line break closes.
  ghost predicate QuietLine(tokens: seq<Token>) {
    Trivia(tokens) && forall k: nat :: k + 1 < |tokens| ==> ClosedAt(tokens, k)
  }

  ghost predicate Fits(p: Piece) {
    Quiet(p.lead) && QuietLine(p.tail)
  }

  ghost predicate AllFit(pieces: seq<Piece>) {
    forall i :: 0 <= i < |pieces| ==> Fits(pieces[i])
  }

  lemma FitsCons(p: Piece, rest: seq<Piece>)
    requires Fits(p) && AllFit(rest)
    ensures AllFit([p] + rest)
  {}

  lemma SortedFit(pieces: seq<Piece>)
    requires AllFit(pieces)
    ensures AllFit(Sorting.StableSort(PieceLe, pieces))
  {
    forall i | 0 <= i < |pieces| ensures Fits(Sorting.StableSort(PieceLe, pieces)[i]) {
      Sorting.SortedElement(PieceLe, pieces, i);
    }
  }

  lemma QuietFlows(s: Expect, tokens: seq<Token>)
    requires Quiet(tokens) && !s.Broken?
    ensures Flows(s, tokens, s) && Items(tokens) == []
  {
    TriviaIsSilent(s, tokens);
  }

  lemma QuietLineFlows(s: Expect, tail: seq<Token>, end: Token)
    requires QuietLine(tail) && end.Newline? && !s.Broken?
    ensures Flows(s, tail + [end], s) && Items(tail + [end]) == []
  {
    var all := tail + [end];
    forall k: nat | k < |all| ensures ClosedAt(all, k) {
      if k + 1 < |tail| { assert ClosedAt(tail, k); }
    }
    assert Trivia(all);
    QuietFlows(s, all);
  }

  lemma LineFlows(s: Expect, p: Piece, comma: bool, end: Token)
    requires Fits(p) && end.Newline? && (s.Start? || s.AfterComma?)
    ensures Flows(s, RenderLine(p, comma, end), if comma then AfterComma else AfterItem)
    ensures Items(RenderLine(p, comma, end)) == [p.item]
  {
    QuietFlows(s, p.lead);
    OneFlows(s, Member(p.item));
    FlowsOn(s, p.lead, s, [Member(p.item)], AfterItem);
    var front := p.lead + [Member(p.item)];
    if comma {
      OneFlows(AfterItem, Comma);
      FlowsOn(s, front, AfterItem, [Comma], AfterComma);
      QuietLineFlows(AfterComma, p.tail, end);
      FlowsOn(s, front + [Comma], AfterComma, p.tail + [end], AfterComma);
      assert RenderLine(p, comma, end) == front + [Comma] + (p.tail + [end]);
    } else {
      QuietLineFlows(AfterItem, p.tail, end);
      FlowsOn(s, front, AfterItem, p.tail + [end], AfterItem);
      assert RenderLine(p, comma, end) == front + (p.tail + [end]);
    }
  }

  lemma {:induction false} LinesFlow(s: Expect, pieces: seq<Piece>, ends: seq<Token>, trailing: bool)
    requires |pieces| == |ends| > 0 && AllFit(pieces) && (s.Start? || s.AfterComma?)
    requires forall k :: 0 <= k < |ends| ==> ends[k].Newline?
    ensures Flows(s, RenderLines(pieces, ends, trailing), if trailing then AfterComma else AfterItem)
    ensures Items(RenderLines(pieces, ends, trailing)) == Sorting.Mapped(ItemOf, pieces)
    decreases |pieces|
  {
    var comma := |pieces| > 1 || trailing;
    var first := RenderLine(pieces[0], comma, ends[0]);
    LineFlows(s, pieces[0], comma, ends[0]);
    if |pieces| == 1 {
      assert RenderLines(pieces, ends, trailing) == first + [] == first;
      assert Sorting.Mapped(ItemOf, pieces) == [pieces[0].item];
    } else {
      LinesFlow(AfterComma, pieces[1..], ends[1..], trailing);
      FlowsOn(s, first, AfterComma, RenderLines(pieces[1..], ends[1..], trailing),
              if trailing then AfterComma else AfterItem);
    }
  }

  ghost predicate Separates(separator: seq<Token>) {
    Flows(AfterItem, separator, AfterComma) && Items(separator) == []
  }

  lemma MemberFlows(s: Expect, separator: seq<Token>, t: Expect, p: Piece)
    requires Flows(s, separator, t) && Items(separator) == [] && (t.Start? || t.AfterComma?) && Quiet(p.lead)
    ensures Flows(s, separator + p.lead + [Member(p.item)], AfterItem)
    ensures Items(separator + p.lead + [Member(p.item)]) == [p.item]
  {
    QuietFlows(t, p.lead);
    OneFlows(t, Member(p.item));
    FlowsOn(s, separator, t, p.lead, t);
    FlowsOn(s, separator + p.lead, t, [Member(p.item)], AfterItem);
  }

  lemma {:induction false} RowFlows(s: Expect, separators: seq<seq<Token>>, t: Expect, pieces: seq<Piece>)
    requires |separators| == |pieces| > 0 && AllFit(pieces)
    requires Flows(s, separators[0], t) && Items(separators[0]) == [] && (t.Start? || t.AfterComma?)
    requires forall i :: 0 < i < |separators| ==> Separates(separators[i])
    ensures Flows(s, RenderRow(separators, pieces), AfterItem)
    ensures Items(RenderRow(separators, pieces)) == Sorting.Mapped(ItemOf, pieces)
    decreases |pieces|
  {
    var first := separators[0] + pieces[0].lead + [Member(pieces[0].item)];
    MemberFlows(s, separators[0], t, pieces[0]);
    if |pieces| == 1 {
      assert RenderRow(separators, pieces) == first + [] == first;
      assert Sorting.Mapped(ItemOf, pieces) == [pieces[0].item];
    } else {
      assert Separates(separators[1]);
      RowFlows(AfterItem, separators[1..], AfterComma, pieces[1..]);
      FlowsOn(s, first, AfterItem, RenderRow(separators[1..], pieces[1..]), AfterItem);
    }
  }

  // ---------------------------------------------------------------- the container's own pieces

  lemma SliceIsQuiet(tokens: seq<Token>, p: nat, q: nat)
    requires WellFormed(tokens) && p <= q && Cut(tokens, q) && Items(tokens[p..q]) == []
    requires Before(tokens, p).Start? || Before(tokens, p).AfterComma?
    ensures Quiet(tokens[p..q])
  {
    SliceFlows(tokens, p, q);
    if Before(tokens, p).Start? { NoItemsFromStart(tokens[p..q]); } else { NoItemsAfterComma(tokens[p..q]); }
  }

  lemma RowPieceFits(tokens: seq<Token>, i: nat)
    requires WellFormed(tokens) && i < |Items(tokens)|
    ensures Quiet(tokens[LeadStart(tokens, i)..ItemIndex(tokens, i)])
    ensures i > 0 ==> Separates(tokens[PreviousEnd(tokens, i)..LeadStart(tokens, i)])
  {
    var m := ItemIndex(tokens, i);
    CutAtItem(tokens, i);
    if i == 0 {
      BeforeItems(tokens, m);
      assert tokens[0..m] == tokens[..m] && tokens[..0] == [];
      SliceIsQuiet(tokens, 0, m);
    } else {
      RowSeparator(tokens, i);
    }
  }

  lemma RowSeparator(tokens: seq<Token>, i: nat)
    requires WellFormed(tokens) && 0 < i < |Items(tokens)| && Cut(tokens, ItemIndex(tokens, i))
    ensures Quiet(tokens[LeadStart(tokens, i)..ItemIndex(tokens, i)])
    ensures Separates(tokens[PreviousEnd(tokens, i)..LeadStart(tokens, i)])
  {
    var start, m := PreviousEnd(tokens, i), ItemIndex(tokens, i);
    StatesAround(tokens, i, start, m);
    CommaBetween(tokens, i, start, m);
    var comma := FirstComma(tokens, start, m);
    assert LeadStart(tokens, i) == comma.value + 1;
    SeparatorAtComma(tokens, i, start, comma.value, m);
  }

  lemma StatesAround(tokens: seq<Token>, i: nat, start: nat, m: nat)
    requires WellFormed(tokens) && 0 < i < |Items(tokens)|
    requires start == ItemIndex(tokens, i - 1) + 1 && m == ItemIndex(tokens, i)
    ensures start <= m && Before(tokens, start).AfterItem? && Before(tokens, m).AfterComma?
  {
    StateAtItem(tokens, i - 1);
    StateAtItem(tokens, i);
    ItemIndexOrdered(tokens, i - 1, i);
  }

  lemma CommaBetween(tokens: seq<Token>, i: nat, start: nat, m: nat)
    requires 0 < i < |Items(tokens)| && ItemIndex(tokens, i - 1) < start <= m == ItemIndex(tokens, i)
    requires Before(tokens, start).AfterItem? && Before(tokens, m).AfterComma?
    ensures FirstComma(tokens, start, m).Some?
  {
    if FirstComma(tokens, start, m).None? {
      GapWithin(tokens, i - 1, start, m);
      QuietBetween(tokens, start, m);
      assert false;
    }
  }

  lemma SeparatorAtComma(tokens: seq<Token>, i: nat, start: nat, c: nat, m: nat)
    requires WellFormed(tokens) && 0 < i < |Items(tokens)| && m == ItemIndex(tokens, i) && Cut(tokens, m)
    requires ItemIndex(tokens, i - 1) + 1 == start <= c < m && tokens[c].Comma? && NoComma(tokens, start, c)
    requires Before(tokens, start).AfterItem?
    ensures Quiet(tokens[c + 1..m]) && Separates(tokens[start..c + 1])
  {
    GapWithin(tokens, i - 1, start, c);
    QuietBetween(tokens, start, c);
    RunStep(Start, tokens, c);
    GapWithin(tokens, i - 1, c + 1, m);
    SliceIsQuiet(tokens, c + 1, m);
    GapWithin(tokens, i - 1, start, c + 1);
    SliceFlows(tokens, start, c + 1);
  }

  lemma {:induction false} RowPiecesFit(tokens: seq<Token>, i: nat)
    requires WellFormed(tokens) && i <= |Items(tokens)|
    ensures AllFit(RowPieces(tokens, i))
    decreases |Items(tokens)| - i
  {
    if i < |Items(tokens)| {
      RowPieceFits(tokens, i);
      RowPiecesFit(tokens, i + 1);
      FitsCons(RowPieces(tokens, i)[0], RowPieces(tokens, i + 1));
    }
  }

  lemma {:induction false} SeparatorsSeparate(tokens: seq<Token>, i: nat)
    requires WellFormed(tokens) && 0 < i <= |Items(tokens)|
    ensures forall k :: 0 <= k < |Separators(tokens, i)| ==> Separates(Separators(tokens, i)[k])
    decreases |Items(tokens)| - i
  {
    if i < |Items(tokens)| {
      RowPieceFits(tokens, i);
      SeparatorsSeparate(tokens, i + 1);
    }
  }

  lemma SortedRowFlows(tokens: seq<Token>, separators: seq<seq<Token>>, pieces: seq<Piece>)
    requires WellFormed(tokens) && Items(tokens) != []
    requires separators == Separators(tokens, 0) && |pieces| == |separators| && AllFit(pieces)
    ensures Flows(Start, RenderRow(separators, pieces), AfterItem)
    ensures Items(RenderRow(separators, pieces)) == Sorting.Mapped(ItemOf, pieces)
  {
    SeparatorsSeparate(tokens, 1);
    var rest := Separators(tokens, 1);
    assert separators == [[]] + rest;
    forall i | 0 < i < |separators| ensures Separates(separators[i]) {
      assert separators[i] == rest[i - 1];
    }
    RowFlows(Start, separators, Start, pieces);
  }

  lemma BehindLastItem(tokens: seq<Token>, row: seq<Token>, p: nat)
    requires WellFormed(tokens) && Items(tokens) != [] && p == ItemIndex(tokens, |Items(tokens)| - 1) + 1
    requires Flows(Start, row, AfterItem)
    ensures WellFormed(row + tokens[p..]) && Items(row + tokens[p..]) == Items(row)
  {
    StateAtItem(tokens, |Items(tokens)| - 1);
    EndFlows(tokens, p);
    FlowsOn(Start, row, AfterItem, tokens[p..], Run(Start, tokens));
    ItemsBehind(tokens, |Items(tokens)| - 1);
  }

  lemma SortRowSorts(tokens: seq<Token>)
    requires WellFormed(tokens) && Items(tokens) != []
    ensures WellFormed(SortRow(tokens)) && Items(SortRow(tokens)) == Sorting.StableSort(KeyLe, Items(tokens))
  {
    var pieces := RowPieces(tokens, 0);
    RowPiecesFit(tokens, 0);
    SortedFit(pieces);
    RowPiecesCarry(tokens, 0);
    SortedPiecesCarry(pieces, Items(tokens));
    var sorted, separators := Sorting.StableSort(PieceLe, pieces), Separators(tokens, 0);
    SortedRowFlows(tokens, separators, sorted);
    BehindLastItem(tokens, RenderRow(separators, sorted), ItemIndex(tokens, |Items(tokens)| - 1) + 1);
  }

  lemma LineTail(tokens: seq<Token>, i: nat, line: MemberLine)
    requires WellFormed(tokens) && Owns(tokens, i, line)
    ensures QuietLine(Tail(tokens, ItemIndex(tokens, i), line))
  {
    var m := ItemIndex(tokens, i);
    GapWithin(tokens, i, m + 1, line.newline);
    if line.comma.Some? {
      CommaState(tokens, i, line);
      TailAroundComma(tokens, m, line.comma.value, line.newline);
    } else {
      TailWithoutComma(tokens, m, line.newline);
    }
  }

  lemma TailWithoutComma(tokens: seq<Token>, m: nat, newline: nat)
    requires Closed(tokens) && m < newline < |tokens| && NoComma(tokens, m + 1, newline)
    requires Items(tokens[m + 1..newline]) == []
    ensures QuietLine(tokens[m + 1..newline])
  {
    var tail := tokens[m + 1..newline];
    NoMembers(tail);
    forall k: nat | k < |tail|
      ensures !tail[k].Comma? && (k + 1 < |tail| ==> ClosedAt(tail, k))
    {
      assert tail[k] == tokens[m + 1 + k] && ClosedAt(tokens, m + 1 + k) && NotComma(tokens, m + 1 + k);
    }
  }

  lemma TailAroundComma(tokens: seq<Token>, m: nat, c: nat, newline: nat)
    requires WellFormed(tokens) && m < c < newline < |tokens| && tokens[c].Comma? && NoComma(tokens, m + 1, c)
    requires Before(tokens, c + 1).AfterComma? && Items(tokens[m + 1..newline]) == []
    ensures QuietLine(tokens[m + 1..c] + tokens[c + 1..newline])
  {
    QuietBehindComma(tokens, m, c, newline);
    PartHasNoItems(tokens, m + 1, c, newline);
    TailWithoutComma(tokens, m, c);
    JoinQuietLines(tokens, m, c, newline);
  }

  lemma QuietBehindComma(tokens: seq<Token>, m: nat, c: nat, newline: nat)
    requires WellFormed(tokens) && m < c < newline < |tokens|
    requires Before(tokens, c + 1).AfterComma? && Items(tokens[m + 1..newline]) == []
    ensures Trivia(tokens[c + 1..newline])
  {
    SubSlice(tokens, m + 1, c + 1, newline);
    ItemsSplit(tokens[m + 1..newline], c - m);
    QuietAfterComma(tokens, c + 1, newline);
    assert tokens[..newline] == tokens[..c + 1] + tokens[c + 1..newline];
    RunAppend(Start, tokens[..c + 1], tokens[c + 1..newline]);
    NoItemsAfterComma(tokens[c + 1..newline]);
  }

  lemma JoinQuietLines(tokens: seq<Token>, m: nat, c: nat, newline: nat)
    requires Closed(tokens) && m < c < newline < |tokens| && tokens[c].Comma?
    requires Trivia(tokens[m + 1..c]) && Trivia(tokens[c + 1..newline])
    ensures QuietLine(tokens[m + 1..c] + tokens[c + 1..newline])
  {
    var front, back := tokens[m + 1..c], tokens[c + 1..newline];
    var tail := front + back;
    forall k: nat | k < |tail|
      ensures !tail[k].Member? && !tail[k].Comma? && (k + 1 < |tail| ==> ClosedAt(tail, k))
    {
      if k < |front| {
        assert tail[k] == front[k] == tokens[m + 1 + k] && ClosedAt(tokens, m + 1 + k);
      } else {
        assert tail[k] == back[k - |front|] == tokens[c + 1 + (k - |front|)] && ClosedAt(tokens, c + 1 + (k - |front|));
      }
    }
  }

  lemma {:induction false} LinePiecesFit(tokens: seq<Token>, lines: seq<MemberLine>, i: nat)
    requires WellFormed(tokens) && Laid(tokens, lines) && i <= |lines|
    ensures AllFit(LinePieces(tokens, lines, i))
    decreases |lines| - i
  {
    if i < |lines| {
      assert LaidAt(tokens, lines, i);
      LineTail(tokens, i, lines[i]);
      LineLead(tokens, lines, i);
      LinePiecesFit(tokens, lines, i + 1);
      FitsCons(LinePieces(tokens, lines, i)[0], LinePieces(tokens, lines, i + 1));
    }
  }

  lemma LineLead(tokens: seq<Token>, lines: seq<MemberLine>, i: nat)
    requires WellFormed(tokens) && Laid(tokens, lines) && i < |lines|
    requires lines[i].leadStart <= ItemIndex(tokens, i)
    ensures Quiet(tokens[lines[i].leadStart..ItemIndex(tokens, i)])
  {
    var m, lead := ItemIndex(tokens, i), lines[i].leadStart;
    CutAtItem(tokens, i);
    StateInFront(tokens, lines, i);
    ItemsInFront(tokens, lines, i);
    ItemsBefore(tokens, i);
    LeadHasNoItems(tokens, lead, m);
    SliceIsQuiet(tokens, lead, m);
  }

  lemma LeadHasNoItems(tokens: seq<Token>, p: nat, m: nat)
    requires p <= m <= |tokens| && Items(tokens[..p]) == Items(tokens[..m])
    ensures Items(tokens[p..m]) == []
  {
    assert tokens[..m][..p] == tokens[..p] && tokens[..m][p..] == tokens[p..m];
    ItemsSplit(tokens[..m], p);
    assert |Items(tokens[p..m])| == 0;
  }

  lemma SortLinesSorts(tokens: seq<Token>, lines: seq<MemberLine>)
    requires WellFormed(tokens) && Laid(tokens, lines)
    ensures WellFormed(SortLines(tokens, lines))
    ensures Items(SortLines(tokens, lines)) == Sorting.StableSort(KeyLe, Items(tokens))
  {
    var n := |lines| - 1;
    assert LaidAt(tokens, lines, n) && LaidAt(tokens, lines, 0);
    var pieces, ends := LinePieces(tokens, lines, 0), LineEnds(tokens, lines, 0);
    var sorted := Sorting.StableSort(PieceLe, pieces);
    LinePiecesFit(tokens, lines, 0);
    SortedFit(pieces);
    LinePiecesCarry(tokens, lines, 0);
    SortedPiecesCarry(pieces, Items(tokens));
    LinesFlow(Start, sorted, ends, lines[n].comma.Some?);
    LinesBetween(tokens, lines, RenderLines(sorted, ends, lines[n].comma.Some?));
  }

  // What stands between the first line and the last may be replaced.
  lemma LinesBetween(tokens: seq<Token>, lines: seq<MemberLine>, body: seq<Token>)
    requires WellFormed(tokens) && Laid(tokens, lines)
    requires lines[0].leadStart <= |tokens| && lines[|lines| - 1].newline < |tokens|
    requires Flows(Start, body, if lines[|lines| - 1].comma.Some? then AfterComma else AfterItem)
    ensures var r := tokens[..lines[0].leadStart] + body + tokens[lines[|lines| - 1].newline + 1..];
            WellFormed(r) && Items(r) == Items(body)
  {
    var n := |lines| - 1;
    assert LaidAt(tokens, lines, n);
    var head, end := lines[0].leadStart, lines[n].newline + 1;
    StateInFront(tokens, lines, 0);
    CutInFront(tokens, lines, 0);
    ItemsInFront(tokens, lines, 0);
    StateBehind(tokens, n, lines[n]);
    ItemsAroundLine(tokens, n, lines[n]);
    FrontFlows(tokens, head);
    EndFlows(tokens, end);
    FlowsOn(Start, tokens[..head], Start, body, Before(tokens, end));
    FlowsOn(Start, tokens[..head] + body, Before(tokens, end), tokens[end..], Run(Start, tokens));
  }

  // The text stays a container, and its members are stably sorted by key.
  lemma SortMembersSorts(tokens: seq<Token>)
    requires WellFormed(tokens)
    ensures WellFormed(SortMembers(tokens))
    ensures Items(SortMembers(tokens)) == Sorting.StableSort(KeyLe, Items(tokens))
  {
    if Items(tokens) == [] {
    } else {
      var layout := Layout(tokens);
      if layout.Some? {
        LayoutIsLaid(tokens, layout.value);
        SortLinesSorts(tokens, layout.value);
      } else {
        SortRowSorts(tokens);
      }
    }
  }
}

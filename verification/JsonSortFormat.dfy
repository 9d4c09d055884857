// What sorting leaves of a container's text: every member moves with its own comments, while
// separators and line breaks stay in their places.
module JsonSortFormat {
  import opened Prelude
  import opened JsonTokens
  import opened JsonLayout
  import opened JsonEdits
  import opened JsonFormat
  import opened JsonSort
  import Sorting

  // ---------------------------------------------------------------- the order as places

  function ItemAt(items: seq<Item>, k: nat): Item {
    if k < |items| then items[k] else Item(None, Leaf(""))
  }

  function Places(n: nat): (places: seq<nat>)
    ensures |places| == n && forall k :: 0 <= k < n ==> places[k] == k
  {
    seq(n, k requires 0 <= k < n => k)
  }

  // Which old member comes at each place: the stable order of the keys.
  function OldPlaces(items: seq<Item>): (order: seq<nat>)
    ensures |order| == |items| && multiset(order) == multiset(Places(|items|))
  {
    Sorting.StableSort((i: nat, j: nat) => KeyLe(ItemAt(items, i), ItemAt(items, j)), Places(|items|))
  }

  lemma {:induction false} OldPlaceIsPlace(items: seq<Item>, k: nat)
    requires k < |items|
    ensures OldPlaces(items)[k] < |items|
  {
    assert OldPlaces(items)[k] in multiset(Places(|items|));
  }

  function PieceAt(pieces: seq<Piece>, k: nat): Piece {
    if k < |pieces| then pieces[k] else Piece([], Item(None, Leaf("")), [])
  }

  lemma {:induction false} MappedPlaces(pieces: seq<Piece>, f: nat -> Piece, order: seq<nat>)
    requires forall k: nat :: f(k) == PieceAt(pieces, k)
    ensures |Sorting.Mapped(f, order)| == |order|
    ensures forall k :: 0 <= k < |order| ==> Sorting.Mapped(f, order)[k] == PieceAt(pieces, order[k])
  {
    forall k | 0 <= k < |order| ensures Sorting.Mapped(f, order)[k] == PieceAt(pieces, order[k]) {
      assert Sorting.Mapped(f, order)[k] == f(order[k]);
    }
  }

  // Sorting the pieces is taking them in that order.
  lemma {:induction false} SortedPieces(pieces: seq<Piece>, items: seq<Item>)
    requires |pieces| == |items| && forall k :: 0 <= k < |items| ==> pieces[k].item == items[k]
    ensures forall k :: 0 <= k < |items| ==>
              OldPlaces(items)[k] < |items| && Sorting.StableSort(PieceLe, pieces)[k] == pieces[OldPlaces(items)[k]]
  {
    var f := (k: nat) => PieceAt(pieces, k);
    var via := (i: nat, j: nat) => KeyLe(ItemAt(items, i), ItemAt(items, j));
    assert Sorting.Through(PieceLe, f, via) by {
      forall i: nat, j: nat ensures via(i, j) == PieceLe(f(i), f(j)) {}
    }
    var places := Places(|items|);
    MappedPlaces(pieces, f, places);
    assert Sorting.Mapped(f, places) == pieces;
    Sorting.SortMapped(PieceLe, f, via, places);
    MappedPlaces(pieces, f, OldPlaces(items));
    forall k | 0 <= k < |items|
      ensures OldPlaces(items)[k] < |items| && Sorting.StableSort(PieceLe, pieces)[k] == pieces[OldPlaces(items)[k]]
    {
      OldPlaceIsPlace(items, k);
    }
  }

  // ---------------------------------------------------------------- in lines

  // A member's own lines, with a comma or without, ended by the given line break.
  function Relined(block: seq<Token>, comma: bool, eol: Token): seq<Token> {
    var lined := if comma then WithComma(WithoutComma(block)) else WithoutComma(block);
    if lined == [] then [] else lined[..|lined| - 1] + [eol]
  }

  // A container's lines in the order of the keys.
  function SortedLines(tokens: seq<Token>, lines: seq<MemberLine>): (blocks: seq<seq<Token>>)
    requires |lines| == |Items(tokens)|
  {
    var n, order := |lines|, OldPlaces(Items(tokens));
    seq(n, k requires 0 <= k < n =>
      var eol := if lines[k].newline < |tokens| then tokens[lines[k].newline] else Newline(false);
      Relined(OwnLines(tokens, lines, order[k]), k + 1 < n || lines[n - 1].comma.Some?, eol))
  }

  lemma {:induction false} LinePiecesAt(tokens: seq<Token>, lines: seq<MemberLine>, i: nat, k: nat)
    requires Laid(tokens, lines) && i <= k < |lines|
    ensures LaidAt(tokens, lines, k)
    ensures LinePieces(tokens, lines, i)[k - i]
         == Piece(tokens[lines[k].leadStart..ItemIndex(tokens, k)], Items(tokens)[k],
                  Tail(tokens, ItemIndex(tokens, k), lines[k]))
    ensures LineEnds(tokens, lines, i)[k - i] == tokens[lines[k].newline]
    decreases k - i
  {
    assert LaidAt(tokens, lines, k);
    if i < k { LinePiecesAt(tokens, lines, i + 1, k); }
  }

  lemma {:induction false} NoCommaToTake(block: seq<Token>)
    requires NoComma(block, 0, |block|)
    ensures WithoutComma(block) == block
  {
    if block != [] {
      assert NotComma(block, 0);
      forall k: nat | k < |block| - 1 ensures NotComma(block[1..], k) { assert NotComma(block, k + 1); }
      NoCommaToTake(block[1..]);
    }
  }

  // A member's lines without their comma: what leads to it, the member, what follows it, the break.
  lemma {:induction false} BareLines(tokens: seq<Token>, lines: seq<MemberLine>, k: nat)
    requires WellFormed(tokens) && InLayout(tokens, lines) && Laid(tokens, lines) && k < |lines|
    ensures LaidAt(tokens, lines, k)
    ensures var m := ItemIndex(tokens, k);
            WithoutComma(OwnLines(tokens, lines, k))
            == tokens[lines[k].leadStart..m] + [tokens[m]] + Tail(tokens, m, lines[k]) + [tokens[lines[k].newline]]
  {
    assert LaidAt(tokens, lines, k) && MemberHasLine(tokens, Children(tokens), lines, k);
    if lines[k].comma.Some? { BareWithComma(tokens, lines, k); } else { BareWithout(tokens, lines, k); }
  }

  lemma {:induction false} BareWithComma(tokens: seq<Token>, lines: seq<MemberLine>, k: nat)
    requires WellFormed(tokens) && InLayout(tokens, lines) && Laid(tokens, lines) && k < |lines|
             && LaidAt(tokens, lines, k)
    requires lines[k].comma.Some? && lines[k].leadStart == LeadOf(lines, k)
    ensures var m := ItemIndex(tokens, k);
            WithoutComma(OwnLines(tokens, lines, k))
            == tokens[lines[k].leadStart..m] + [tokens[m]] + Tail(tokens, m, lines[k]) + [tokens[lines[k].newline]]
  {
    var p, m, c, e := lines[k].leadStart, ItemIndex(tokens, k), lines[k].comma.value, lines[k].newline;
    OwnComma(tokens, lines, k, c);
    PartsWithComma(tokens, p, m, c, e);
    assert Tail(tokens, m, lines[k]) == tokens[m + 1..c] + tokens[c + 1..e];
    assert WithoutComma(OwnLines(tokens, lines, k)) == tokens[p..c] + tokens[c + 1..e + 1];
  }

  lemma {:induction false} BareWithout(tokens: seq<Token>, lines: seq<MemberLine>, k: nat)
    requires WellFormed(tokens) && InLayout(tokens, lines) && Laid(tokens, lines) && k < |lines|
             && LaidAt(tokens, lines, k)
    requires lines[k].comma.None? && lines[k].leadStart == LeadOf(lines, k)
    ensures var m := ItemIndex(tokens, k);
            WithoutComma(OwnLines(tokens, lines, k))
            == tokens[lines[k].leadStart..m] + [tokens[m]] + Tail(tokens, m, lines[k]) + [tokens[lines[k].newline]]
  {
    Ordered(tokens, lines, k);
    LeadIsTrivia(tokens, lines, k);
    PartsWithout(tokens, lines[k].leadStart, ItemIndex(tokens, k), lines[k].newline);
  }

  lemma {:induction false} PartsWithout(tokens: seq<Token>, p: nat, m: nat, e: nat)
    requires p <= m < e < |tokens| && tokens[m].Member? && tokens[e].Newline?
    requires NoComma(tokens, p, m) && NoComma(tokens, m + 1, e)
    ensures WithoutComma(tokens[p..e + 1]) == tokens[p..m] + [tokens[m]] + tokens[m + 1..e] + [tokens[e]]
  {
    var block := tokens[p..e + 1];
    forall j: nat | j < |block| ensures NotComma(block, j) {
      if p + j < e && p + j != m { assert NotComma(tokens, p + j); }
    }
    NoCommaToTake(block);
    assert block == tokens[p..m] + [tokens[m]] + tokens[m + 1..e] + [tokens[e]];
  }

  lemma {:induction false} PartsWithComma(tokens: seq<Token>, p: nat, m: nat, c: nat, e: nat)
    requires p <= m < c < e < |tokens|
    ensures tokens[p..c] + tokens[c + 1..e + 1]
         == tokens[p..m] + [tokens[m]] + (tokens[m + 1..c] + tokens[c + 1..e]) + [tokens[e]]
  {
  }

  lemma {:induction false} CommaBehindMember(lead: seq<Token>, member: Token, rest: seq<Token>)
    requires member.Member? && forall k :: 0 <= k < |lead| ==> !lead[k].Member?
    ensures WithComma(lead + [member] + rest) == lead + [member, Comma] + rest
  {
    var all := lead + [member] + rest;
    if lead == [] {
      assert all[1..] == rest;
    } else {
      assert all[1..] == lead[1..] + [member] + rest;
      CommaBehindMember(lead[1..], member, rest);
    }
  }

  // The rendered line of a member is its own lines anew.
  lemma {:induction false} RenderedAnew(tokens: seq<Token>, lines: seq<MemberLine>, k: nat, comma: bool, eol: Token)
    requires WellFormed(tokens) && InLayout(tokens, lines) && Laid(tokens, lines) && k < |lines|
    ensures RenderLine(LinePieces(tokens, lines, 0)[k], comma, eol) == Relined(OwnLines(tokens, lines, k), comma, eol)
  {
    LinePiecesAt(tokens, lines, 0, k);
    BareLines(tokens, lines, k);
    NoMemberInLead(tokens, lines, k);
    var m := ItemIndex(tokens, k);
    var lead, tail, end := tokens[lines[k].leadStart..m], Tail(tokens, m, lines[k]), tokens[lines[k].newline];
    Reline(lead, tokens[m], tail, end, comma, eol, OwnLines(tokens, lines, k));
  }

  lemma {:induction false} Reline(
      lead: seq<Token>, member: Token, tail: seq<Token>, end: Token, comma: bool, eol: Token, block: seq<Token>)
    requires member.Member? && forall k :: 0 <= k < |lead| ==> !lead[k].Member?
    requires WithoutComma(block) == lead + [member] + tail + [end]
    ensures Relined(block, comma, eol) == lead + [member] + (if comma then [Comma] else []) + tail + [eol]
  {
    var bare := lead + [member] + tail + [end];
    assert bare == lead + [member] + (tail + [end]);
    CommaBehindMember(lead, member, tail + [end]);
    var with := lead + [member, Comma] + (tail + [end]);
    assert bare[..|bare| - 1] == lead + [member] + tail;
    assert with[..|with| - 1] == lead + [member] + [Comma] + tail;
  }

  lemma {:induction false} NoMemberInLead(tokens: seq<Token>, lines: seq<MemberLine>, k: nat)
    requires WellFormed(tokens) && Laid(tokens, lines) && k < |lines|
    ensures LaidAt(tokens, lines, k)
    ensures forall j :: lines[k].leadStart <= j < ItemIndex(tokens, k) ==> !tokens[j].Member?
  {
    var p, m := lines[k].leadStart, ItemIndex(tokens, k);
    assert LaidAt(tokens, lines, k);
    ItemsInFront(tokens, lines, k);
    ItemsBefore(tokens, k);
    assert tokens[..m] == tokens[..p] + tokens[p..m];
    ItemsAppend(tokens[..p], tokens[p..m]);
    NoMembers(tokens[p..m]);
    forall j | p <= j < m ensures !tokens[j].Member? { assert tokens[j] == tokens[p..m][j - p]; }
  }

  lemma {:induction false} RenderedJoined(
      pieces: seq<Piece>, ends: seq<Token>, trailing: bool, blocks: seq<seq<Token>>)
    requires |pieces| == |ends| == |blocks|
    requires forall k: nat :: k < |pieces| ==> IsRendered(pieces, ends, trailing, blocks, k)
    ensures RenderLines(pieces, ends, trailing) == Joined(blocks)
  {
    if pieces != [] {
      forall k: nat | k < |pieces| - 1 ensures IsRendered(pieces[1..], ends[1..], trailing, blocks[1..], k) {
        assert IsRendered(pieces, ends, trailing, blocks, k + 1);
      }
      RenderedJoined(pieces[1..], ends[1..], trailing, blocks[1..]);
      assert IsRendered(pieces, ends, trailing, blocks, 0);
      assert blocks == [blocks[0]] + blocks[1..];
      JoinedAppend([blocks[0]], blocks[1..]);
      JoinedOne(blocks[0]);
    }
  }

  ghost predicate IsRendered(pieces: seq<Piece>, ends: seq<Token>, trailing: bool, blocks: seq<seq<Token>>, k: nat) {
    k < |pieces| && k < |ends| && k < |blocks|
    && blocks[k] == RenderLine(pieces[k], k + 1 < |pieces| || trailing, ends[k])
  }

  lemma {:induction false} SortedLinesJoined(tokens: seq<Token>, lines: seq<MemberLine>)
    requires WellFormed(tokens) && InLayout(tokens, lines) && Laid(tokens, lines)
    ensures var pieces := Sorting.StableSort(PieceLe, LinePieces(tokens, lines, 0));
            RenderLines(pieces, LineEnds(tokens, lines, 0), lines[|lines| - 1].comma.Some?)
            == Joined(SortedLines(tokens, lines))
  {
    var n, parts, ends := |lines|, LinePieces(tokens, lines, 0), LineEnds(tokens, lines, 0);
    var pieces, blocks := Sorting.StableSort(PieceLe, parts), SortedLines(tokens, lines);
    forall k | 0 <= k < n ensures parts[k].item == Items(tokens)[k] { LinePiecesAt(tokens, lines, 0, k); }
    SortedPieces(parts, Items(tokens));
    var trailing := lines[n - 1].comma.Some?;
    forall k: nat | k < n ensures IsRendered(pieces, ends, trailing, blocks, k) { SortedLineAt(tokens, lines, k); }
    RenderedJoined(pieces, ends, trailing, blocks);
  }

  lemma {:induction false} SortedLineIs(tokens: seq<Token>, lines: seq<MemberLine>, k: nat)
    requires |lines| == |Items(tokens)| && k < |lines| && lines[k].newline < |tokens|
    ensures SortedLines(tokens, lines)[k]
         == Relined(OwnLines(tokens, lines, OldPlaces(Items(tokens))[k]),
                    k + 1 < |lines| || lines[|lines| - 1].comma.Some?, tokens[lines[k].newline])
  {
  }

  lemma {:induction false} SortedLineAt(tokens: seq<Token>, lines: seq<MemberLine>, k: nat)
    requires WellFormed(tokens) && InLayout(tokens, lines) && Laid(tokens, lines) && k < |lines|
    ensures OldPlaces(Items(tokens))[k] < |lines|
    ensures SortedLines(tokens, lines)[k]
         == RenderLine(LinePieces(tokens, lines, 0)[OldPlaces(Items(tokens))[k]],
                       k + 1 < |lines| || lines[|lines| - 1].comma.Some?, LineEnds(tokens, lines, 0)[k])
  {
    LinePiecesAt(tokens, lines, 0, k);
    SortedLineIs(tokens, lines, k);
    OldPlaceIsPlace(Items(tokens), k);
    RenderedAnew(tokens, lines, OldPlaces(Items(tokens))[k],
                 k + 1 < |lines| || lines[|lines| - 1].comma.Some?, tokens[lines[k].newline]);
  }

  lemma {:induction false} SortLinesAround(tokens: seq<Token>, lines: seq<MemberLine>)
    requires WellFormed(tokens) && InLayout(tokens, lines) && Laid(tokens, lines)
    ensures LeadOf(lines, 0) <= |tokens| && LeadOf(lines, |lines|) <= |tokens|
    ensures SortLines(tokens, lines) == Around(tokens, lines, SortedLines(tokens, lines))
  {
    Increasing(tokens, lines, 0, |lines|);
    SortedLinesJoined(tokens, lines);
    assert LaidAt(tokens, lines, |lines| - 1);
    assert LeadOf(lines, 0) == lines[0].leadStart && LeadOf(lines, |lines|) == lines[|lines| - 1].newline + 1;
  }

  // Where every member ends its own line, sorting takes each member's own lines, comments included,
  // to the member's new place; the comma and the line break are those the place needs and had.
  lemma {:induction false} SortMembersMovesOwnLines(tokens: seq<Token>, lines: seq<MemberLine>)
    requires WellFormed(tokens) && InLayout(tokens, lines)
    ensures |lines| == |Items(tokens)| > 0 && LeadOf(lines, 0) <= |tokens| && LeadOf(lines, |lines|) <= |tokens|
    ensures SortMembers(tokens) == Around(tokens, lines, SortedLines(tokens, lines))
  {
    LaidOut(tokens, lines);
    SortLinesAround(tokens, lines);
  }

  lemma {:induction false} EndIsNoComment(tokens: seq<Token>, eol: Token)
    requires tokens != [] && tokens[|tokens| - 1].Newline? && eol.Newline?
    ensures Comments(tokens[..|tokens| - 1] + [eol]) == Comments(tokens)
  {
    var other := tokens[..|tokens| - 1] + [eol];
    if |tokens| == 1 {
      assert tokens[1..] == [] && other[1..] == [];
    } else {
      assert other[1..] == tokens[1..][..|tokens| - 2] + [eol];
      EndIsNoComment(tokens[1..], eol);
    }
  }

  // A member's lines keep their comments wherever they go.
  lemma {:induction false} MovedLinesKeepComments(
      tokens: seq<Token>, lines: seq<MemberLine>, k: nat, comma: bool, eol: Token)
    requires WellFormed(tokens) && InLayout(tokens, lines) && k < |lines| && eol.Newline?
    ensures Comments(Relined(OwnLines(tokens, lines, k), comma, eol)) == Comments(OwnLines(tokens, lines, k))
  {
    LaidOut(tokens, lines);
    BareLines(tokens, lines, k);
    NoMemberInLead(tokens, lines, k);
    var block, m := OwnLines(tokens, lines, k), ItemIndex(tokens, k);
    var lead, tail, end := tokens[lines[k].leadStart..m], Tail(tokens, m, lines[k]), tokens[lines[k].newline];
    RelinedComments(lead, tokens[m], tail, end, comma, eol, block);
  }

  lemma {:induction false} RelinedComments(
      lead: seq<Token>, member: Token, tail: seq<Token>, end: Token, comma: bool, eol: Token, block: seq<Token>)
    requires member.Member? && end.Newline? && eol.Newline? && forall k :: 0 <= k < |lead| ==> !lead[k].Member?
    requires WithoutComma(block) == lead + [member] + tail + [end]
    ensures Comments(Relined(block, comma, eol)) == Comments(block)
  {
    var bare := WithoutComma(block);
    CommaKeepsComments(block);
    if comma {
      CommaKeepsComments(bare);
      assert bare == lead + [member] + (tail + [end]);
      CommaBehindMember(lead, member, tail + [end]);
      EndIsNoComment(WithComma(bare), eol);
    } else {
      EndIsNoComment(bare, eol);
    }
  }

  // ---------------------------------------------------------------- in a row

  function RowPiece(tokens: seq<Token>, k: nat): Piece
    requires k < |Items(tokens)|
  {
    Piece(tokens[LeadStart(tokens, k)..ItemIndex(tokens, k)], Items(tokens)[k], [])
  }

  function Separator(tokens: seq<Token>, k: nat): seq<Token>
    requires k < |Items(tokens)|
  {
    tokens[PreviousEnd(tokens, k)..LeadStart(tokens, k)]
  }

  // The text that leads to a member, up to and with the member.
  function LedMember(tokens: seq<Token>, i: nat): seq<Token>
    requires i < |Items(tokens)|
  {
    RowPiece(tokens, i).lead + [Member(RowPiece(tokens, i).item)]
  }

  // The members in their new order, each led as before, with the separators in their places.
  function SortedRow(tokens: seq<Token>): seq<seq<Token>> {
    var n, order := |Items(tokens)|, OldPlaces(Items(tokens));
    seq(n, k requires 0 <= k < n =>
      if order[k] < n then Separator(tokens, k) + LedMember(tokens, order[k]) else [])
  }

  lemma {:induction false} RowPiecesCons(tokens: seq<Token>, i: nat)
    requires i < |Items(tokens)|
    ensures RowPieces(tokens, i) == [RowPiece(tokens, i)] + RowPieces(tokens, i + 1)
    ensures Separators(tokens, i) == [Separator(tokens, i)] + Separators(tokens, i + 1)
  {
  }

  lemma {:induction false} RowPiecesAt(tokens: seq<Token>, i: nat, k: nat)
    requires i <= k < |Items(tokens)|
    ensures RowPieces(tokens, i)[k - i] == RowPiece(tokens, k)
    decreases k - i
  {
    RowPiecesCons(tokens, i);
    if i < k {
      RowPiecesAt(tokens, i + 1, k);
      ConsAt(RowPiece(tokens, i), RowPieces(tokens, i + 1), k - i);
    }
  }

  lemma {:induction false} SeparatorsAt(tokens: seq<Token>, i: nat, k: nat)
    requires i <= k < |Items(tokens)|
    ensures Separators(tokens, i)[k - i] == Separator(tokens, k)
    decreases k - i
  {
    RowPiecesCons(tokens, i);
    if i < k {
      SeparatorsAt(tokens, i + 1, k);
      ConsAt(Separator(tokens, i), Separators(tokens, i + 1), k - i);
    }
  }

  lemma {:induction false} ConsAt<T>(x: T, rest: seq<T>, j: nat)
    requires 0 < j <= |rest|
    ensures ([x] + rest)[j] == rest[j - 1]
  {
  }

  ghost predicate IsRowPart(separators: seq<seq<Token>>, pieces: seq<Piece>, blocks: seq<seq<Token>>, k: nat) {
    k < |separators| && k < |pieces| && k < |blocks|
    && blocks[k] == separators[k] + pieces[k].lead + [Member(pieces[k].item)]
  }

  lemma {:induction false} RowJoined(separators: seq<seq<Token>>, pieces: seq<Piece>, blocks: seq<seq<Token>>)
    requires |separators| == |pieces| == |blocks|
    requires forall k: nat :: k < |pieces| ==> IsRowPart(separators, pieces, blocks, k)
    ensures RenderRow(separators, pieces) == Joined(blocks)
  {
    if pieces != [] {
      forall k: nat | k < |pieces| - 1 ensures IsRowPart(separators[1..], pieces[1..], blocks[1..], k) {
        assert IsRowPart(separators, pieces, blocks, k + 1);
      }
      RowJoined(separators[1..], pieces[1..], blocks[1..]);
      assert IsRowPart(separators, pieces, blocks, 0);
      assert blocks == [blocks[0]] + blocks[1..];
      JoinedAppend([blocks[0]], blocks[1..]);
      JoinedOne(blocks[0]);
    }
  }

  lemma {:induction false} RowPartAt(tokens: seq<Token>, k: nat)
    requires k < |Items(tokens)|
    ensures OldPlaces(Items(tokens))[k] < |Items(tokens)|
    ensures var piece := RowPieces(tokens, 0)[OldPlaces(Items(tokens))[k]];
            SortedRow(tokens)[k] == Separators(tokens, 0)[k] + piece.lead + [Member(piece.item)]
  {
    var from := OldPlaces(Items(tokens))[k];
    OldPlaceIsPlace(Items(tokens), k);
    SeparatorsAt(tokens, 0, k);
    RowPiecesAt(tokens, 0, from);
    assert SortedRow(tokens)[k] == Separator(tokens, k) + LedMember(tokens, from);
  }

  lemma {:induction false} SortedRowJoined(tokens: seq<Token>)
    ensures RenderRow(Separators(tokens, 0), Sorting.StableSort(PieceLe, RowPieces(tokens, 0)))
         == Joined(SortedRow(tokens))
  {
    var n, parts, separators, blocks := |Items(tokens)|, RowPieces(tokens, 0), Separators(tokens, 0), SortedRow(tokens);
    var pieces := Sorting.StableSort(PieceLe, parts);
    forall k | 0 <= k < n ensures parts[k].item == Items(tokens)[k] { RowPiecesAt(tokens, 0, k); }
    SortedPieces(parts, Items(tokens));
    forall k: nat | k < n ensures IsRowPart(separators, pieces, blocks, k) { RowPartAt(tokens, k); }
    RowJoined(separators, pieces, blocks);
  }

  lemma {:induction false} SortRowIs(tokens: seq<Token>)
    requires Items(tokens) != []
    ensures SortRow(tokens)
         == RenderRow(Separators(tokens, 0), Sorting.StableSort(PieceLe, RowPieces(tokens, 0)))
            + tokens[ItemIndex(tokens, |Items(tokens)| - 1) + 1..]
  {
  }

  lemma {:induction false} SortRowJoined(tokens: seq<Token>)
    requires Items(tokens) != []
    ensures SortRow(tokens) == Joined(SortedRow(tokens)) + tokens[ItemIndex(tokens, |Items(tokens)| - 1) + 1..]
  {
    SortRowIs(tokens);
    SortedRowJoined(tokens);
  }

  // Otherwise each member moves with the text that leads to it from the comma, the separators and
  // the closing part stay.
  lemma {:induction false} SortMembersInRow(tokens: seq<Token>)
    requires Items(tokens) != [] && Layout(tokens).None?
    ensures SortMembers(tokens)
         == Joined(SortedRow(tokens)) + tokens[ItemIndex(tokens, |Items(tokens)| - 1) + 1..]
  {
    SortRowJoined(tokens);
  }
}

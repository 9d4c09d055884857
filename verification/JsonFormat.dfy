// What an edit of a container leaves of its text: the lines, comments and blanks of the members
// it does not touch.
module JsonFormat {
  import opened Prelude
  import opened JsonTokens
  import opened JsonLayout
  import opened JsonEdits
  import opened JsonInserts
  import Sequences

  // ---------------------------------------------------------------- the members' own lines

  // The lines of member `k`: from the comments above it to the break that ends its last line.
  function OwnLines(tokens: seq<Token>, lines: seq<MemberLine>, k: nat): seq<Token> {
    if k < |lines| && LeadOf(lines, k) <= LeadOf(lines, k + 1) <= |tokens|
    then tokens[LeadOf(lines, k)..LeadOf(lines, k + 1)] else []
  }

  function Blocks(tokens: seq<Token>, lines: seq<MemberLine>): (blocks: seq<seq<Token>>)
    ensures |blocks| == |lines|
  {
    seq(|lines|, k requires 0 <= k < |lines| => OwnLines(tokens, lines, k))
  }

  function Joined(blocks: seq<seq<Token>>): seq<Token> {
    if blocks == [] then [] else Joined(blocks[..|blocks| - 1]) + blocks[|blocks| - 1]
  }

  // The container with the given lines between its opening and its closing part.
  function Around(tokens: seq<Token>, lines: seq<MemberLine>, blocks: seq<seq<Token>>): seq<Token>
    requires lines != [] && LeadOf(lines, 0) <= |tokens| && LeadOf(lines, |lines|) <= |tokens|
  {
    tokens[..LeadOf(lines, 0)] + Joined(blocks) + tokens[LeadOf(lines, |lines|)..]
  }

  // The lines without their comma.
  function WithoutComma(block: seq<Token>): seq<Token> {
    if block == [] then [] else if block[0].Comma? then block[1..] else [block[0]] + WithoutComma(block[1..])
  }

  // The lines with a comma right behind their member.
  function WithComma(block: seq<Token>): seq<Token> {
    if block == [] then []
    else if block[0].Member? then [block[0], Comma] + block[1..]
    else [block[0]] + WithComma(block[1..])
  }

  function Comments(tokens: seq<Token>): seq<Token> {
    if tokens == [] then []
    else if tokens[0].LineComment? || tokens[0].BlockComment? then [tokens[0]] + Comments(tokens[1..])
    else Comments(tokens[1..])
  }

  // Giving a comma or taking it leaves the comments.
  lemma {:induction false} CommaKeepsComments(block: seq<Token>)
    ensures Comments(WithComma(block)) == Comments(WithoutComma(block)) == Comments(block)
  {
    if block != [] {
      CommaKeepsComments(block[1..]);
      var one, two, rest := WithComma(block), WithoutComma(block), block[1..];
      assert one[0] == block[0];
      if block[0].Member? {
        assert one[1..] == [Comma] + rest && ([Comma] + rest)[1..] == rest;
      } else {
        assert one[1..] == WithComma(rest);
      }
      if !block[0].Comma? { assert two[1..] == WithoutComma(rest); }
    }
  }

  lemma {:induction false} JoinedAppend(front: seq<seq<Token>>, back: seq<seq<Token>>)
    ensures Joined(front + back) == Joined(front) + Joined(back)
  {
    if back == [] {
      assert front + back == front;
    } else {
      assert (front + back)[..|front + back| - 1] == front + back[..|back| - 1];
      JoinedAppend(front, back[..|back| - 1]);
    }
  }

  lemma JoinedOne(block: seq<Token>)
    ensures Joined([block]) == block
  {
    assert [block][..0] == [];
  }

  ghost predicate InLayout(tokens: seq<Token>, lines: seq<MemberLine>) {
    IsLayout(tokens, Children(tokens), lines)
  }

  lemma Ordered(tokens: seq<Token>, lines: seq<MemberLine>, k: nat)
    requires InLayout(tokens, lines) && k < |lines|
    ensures LeadOf(lines, k) <= ItemIndex(tokens, k) < lines[k].newline < LeadOf(lines, k + 1) <= |tokens|
    ensures k + 1 < |lines| ==> LeadOf(lines, k + 1) <= ItemIndex(tokens, k + 1)
  {
    assert MemberHasLine(tokens, Children(tokens), lines, k);
    if k > 0 { assert MemberHasLine(tokens, Children(tokens), lines, k - 1); }
  }

  lemma {:induction false} Increasing(tokens: seq<Token>, lines: seq<MemberLine>, a: nat, b: nat)
    requires InLayout(tokens, lines) && a <= b <= |lines|
    ensures LeadOf(lines, a) <= LeadOf(lines, b) <= |tokens|
    decreases b - a
  {
    if a < b {
      Ordered(tokens, lines, a);
      Increasing(tokens, lines, a + 1, b);
    } else if a > 0 {
      Ordered(tokens, lines, a - 1);
    } else {
      Ordered(tokens, lines, 0);
    }
  }

  // Blocks cut from a text at ascending places join without a gap.
  lemma {:induction false} JoinedPieces(
      tokens: seq<Token>, cuts: seq<nat>, blocks: seq<seq<Token>>, a: nat, b: nat)
    requires |cuts| == |blocks| + 1 && a <= b <= |blocks|
    requires forall k: nat :: k < |blocks| ==> PieceAt(tokens, cuts, blocks, k)
    requires cuts[a] <= |tokens|
    ensures cuts[a] <= cuts[b] <= |tokens| && Joined(blocks[a..b]) == tokens[cuts[a]..cuts[b]]
    decreases b - a
  {
    if a < b {
      JoinedPieces(tokens, cuts, blocks, a, b - 1);
      assert PieceAt(tokens, cuts, blocks, b - 1);
      JoinedSnoc(blocks, a, b - 1);
      assert tokens[cuts[a]..cuts[b - 1]] + tokens[cuts[b - 1]..cuts[b]] == tokens[cuts[a]..cuts[b]];
    } else {
      assert blocks[a..b] == [];
    }
  }

  lemma JoinedSnoc(blocks: seq<seq<Token>>, a: nat, b: nat)
    requires a <= b < |blocks|
    ensures Joined(blocks[a..b + 1]) == Joined(blocks[a..b]) + blocks[b]
  {
    assert blocks[a..b + 1][..b - a] == blocks[a..b];
  }

  ghost predicate PieceAt(tokens: seq<Token>, cuts: seq<nat>, blocks: seq<seq<Token>>, k: nat) {
    k < |blocks| && k + 1 < |cuts| && cuts[k] <= cuts[k + 1] <= |tokens| && blocks[k] == tokens[cuts[k]..cuts[k + 1]]
  }

  // Where the members' lines begin, and where the last of them end.
  function Cuts(lines: seq<MemberLine>): (cuts: seq<nat>)
    requires lines != []
    ensures |cuts| == |lines| + 1 && forall k :: 0 <= k <= |lines| ==> cuts[k] == LeadOf(lines, k)
  {
    seq(|lines| + 1, k requires 0 <= k <= |lines| => LeadOf(lines, k))
  }

  // The lines of neighbouring members join without a gap.
  lemma JoinedLines(tokens: seq<Token>, lines: seq<MemberLine>, a: nat, b: nat)
    requires InLayout(tokens, lines) && a <= b <= |lines|
    ensures LeadOf(lines, a) <= LeadOf(lines, b) <= |tokens|
    ensures Joined(Blocks(tokens, lines)[a..b]) == tokens[LeadOf(lines, a)..LeadOf(lines, b)]
  {
    var cuts, blocks := Cuts(lines), Blocks(tokens, lines);
    forall k: nat | k < |lines| ensures PieceAt(tokens, cuts, blocks, k) { Ordered(tokens, lines, k); }
    Increasing(tokens, lines, a, b);
    JoinedPieces(tokens, cuts, blocks, a, b);
  }

  // What the two parts of a container in lines are, cut at member `i`.
  lemma CutAtLine(tokens: seq<Token>, lines: seq<MemberLine>, i: nat)
    requires InLayout(tokens, lines) && i <= |lines|
    ensures LeadOf(lines, 0) <= LeadOf(lines, i) <= LeadOf(lines, |lines|) <= |tokens|
    ensures tokens[..LeadOf(lines, 0)] + Joined(Blocks(tokens, lines)[..i]) == tokens[..LeadOf(lines, i)]
    ensures Joined(Blocks(tokens, lines)[i..]) + tokens[LeadOf(lines, |lines|)..] == tokens[LeadOf(lines, i)..]
  {
    var blocks, n := Blocks(tokens, lines), |lines|;
    JoinedLines(tokens, lines, 0, i);
    JoinedLines(tokens, lines, i, n);
    assert blocks[0..i] == blocks[..i] && blocks[i..n] == blocks[i..];
  }

  // A container in lines is its opening part, its members' lines in order, and its closing part.
  lemma LinesMakeTheContainer(tokens: seq<Token>, lines: seq<MemberLine>)
    requires InLayout(tokens, lines)
    ensures LeadOf(lines, 0) <= |tokens| && LeadOf(lines, |lines|) <= |tokens|
    ensures tokens == Around(tokens, lines, Blocks(tokens, lines))
  {
    CutAtLine(tokens, lines, |lines|);
    assert Blocks(tokens, lines)[..|lines|] == Blocks(tokens, lines);
  }

  // New blocks between those in front of a place and those behind another one.
  lemma AroundParts(
      tokens: seq<Token>, lines: seq<MemberLine>, front: seq<seq<Token>>, new_: seq<seq<Token>>, back: seq<seq<Token>>)
    requires lines != [] && LeadOf(lines, 0) <= |tokens| && LeadOf(lines, |lines|) <= |tokens|
    ensures Around(tokens, lines, front + new_ + back)
         == (tokens[..LeadOf(lines, 0)] + Joined(front)) + Joined(new_)
            + (Joined(back) + tokens[LeadOf(lines, |lines|)..])
  {
    JoinedAppend(front + new_, back);
    JoinedAppend(front, new_);
    Regroup(tokens[..LeadOf(lines, 0)], Joined(front), Joined(new_), Joined(back), tokens[LeadOf(lines, |lines|)..]);
  }

  lemma Regroup(a: seq<Token>, b: seq<Token>, c: seq<Token>, d: seq<Token>, e: seq<Token>)
    ensures a + (b + c + d) + e == (a + b) + c + (d + e)
  {
  }

  // ---------------------------------------------------------------- removing from lines

  // The lines of the others, the new last one without the comma the removed one did not need.
  function LinesWithout(blocks: seq<seq<Token>>, i: nat, comma: bool): seq<seq<Token>>
    requires i < |blocks|
  {
    if 0 < i == |blocks| - 1 && !comma then blocks[..i - 1] + [WithoutComma(blocks[i - 1])]
    else Sequences.Without(blocks, i)
  }

  lemma {:induction false} CommaAt(block: seq<Token>, c: nat)
    requires c < |block| && block[c].Comma? && NoComma(block, 0, c)
    ensures WithoutComma(block) == block[..c] + block[c + 1..]
  {
    if c > 0 {
      assert NotComma(block, 0);
      forall k: nat | 0 <= k < c - 1 ensures NotComma(block[1..], k) { assert NotComma(block, k + 1); }
      CommaAt(block[1..], c - 1);
      assert block[1..][..c - 1] == block[1..c] && block[1..][c..] == block[c + 1..];
    }
  }

  // Above a member stand blanks, line breaks and comments only.
  lemma LeadIsTrivia(tokens: seq<Token>, lines: seq<MemberLine>, k: nat)
    requires WellFormed(tokens) && InLayout(tokens, lines) && Laid(tokens, lines) && k < |lines|
    ensures LeadOf(lines, k) <= ItemIndex(tokens, k) && NoComma(tokens, LeadOf(lines, k), ItemIndex(tokens, k))
  {
    var p, m := LeadOf(lines, k), ItemIndex(tokens, k);
    Ordered(tokens, lines, k);
    assert MemberHasLine(tokens, Children(tokens), lines, k);
    StateInFront(tokens, lines, k);
    StateAtItem(tokens, k);
    ItemsInFront(tokens, lines, k);
    ItemsBefore(tokens, k);
    QuietStretch(tokens, p, m);
  }

  lemma QuietStretch(tokens: seq<Token>, p: nat, m: nat)
    requires p <= m <= |tokens| && Items(tokens[..p]) == Items(tokens[..m])
    requires Before(tokens, p) == Before(tokens, m) && (Before(tokens, p).Start? || Before(tokens, p).AfterComma?)
    ensures NoComma(tokens, p, m)
  {
    assert tokens[..m] == tokens[..p] + tokens[p..m];
    ItemsAppend(tokens[..p], tokens[p..m]);
    RunAppend(Start, tokens[..p], tokens[p..m]);
    if Before(tokens, p).Start? { NoItemsFromStart(tokens[p..m]); } else { NoItemsAfterComma(tokens[p..m]); }
    forall j: nat | p <= j < m ensures NotComma(tokens, j) { assert tokens[p..m][j - p] == tokens[j]; }
  }

  lemma OwnComma(tokens: seq<Token>, lines: seq<MemberLine>, k: nat, c: nat)
    requires WellFormed(tokens) && InLayout(tokens, lines) && Laid(tokens, lines)
    requires k < |lines| && lines[k].comma == Some(c)
    ensures LeadOf(lines, k) <= c < LeadOf(lines, k + 1) <= |tokens|
    ensures WithoutComma(OwnLines(tokens, lines, k))
            == tokens[LeadOf(lines, k)..c] + tokens[c + 1..LeadOf(lines, k + 1)]
  {
    var p, m, q := LeadOf(lines, k), ItemIndex(tokens, k), LeadOf(lines, k + 1);
    Ordered(tokens, lines, k);
    LeadIsTrivia(tokens, lines, k);
    assert MemberHasLine(tokens, Children(tokens), lines, k);
    var block := tokens[p..q];
    forall j: nat | j < c - p ensures NotComma(block, j) {
      if j < m - p { assert NotComma(tokens, p + j); } else if j > m - p { assert NotComma(tokens, p + j); }
    }
    CommaAt(block, c - p);
    assert block[..c - p] == tokens[p..c] && block[c - p + 1..] == tokens[c + 1..q];
  }

  lemma LaidOut(tokens: seq<Token>, lines: seq<MemberLine>)
    requires InLayout(tokens, lines)
    ensures Layout(tokens) == Some(lines) && Laid(tokens, lines) && |lines| == |Items(tokens)|
  {
    ChildrenAreChildren(tokens);
    LayoutIsExact(tokens, Children(tokens), lines);
    LayoutIsLaid(tokens, lines);
  }

  lemma RemoveWithComma(tokens: seq<Token>, lines: seq<MemberLine>, i: nat)
    requires InLayout(tokens, lines) && Laid(tokens, lines) && i < |lines|
    requires !(0 < i == |lines| - 1 && lines[i].comma.None?)
    ensures LeadOf(lines, 0) <= |tokens| && LeadOf(lines, |lines|) <= |tokens|
    ensures RemoveLine(tokens, lines, i) == Around(tokens, lines, Sequences.Without(Blocks(tokens, lines), i))
  {
    var blocks := Blocks(tokens, lines);
    CutAtLine(tokens, lines, i);
    CutAtLine(tokens, lines, i + 1);
    AroundParts(tokens, lines, blocks[..i], [], blocks[i + 1..]);
    assert Sequences.Without(blocks, i) == blocks[..i] + [] + blocks[i + 1..];
    RemovedLines(tokens, lines, i);
  }

  lemma RemovedLines(tokens: seq<Token>, lines: seq<MemberLine>, i: nat)
    requires InLayout(tokens, lines) && Laid(tokens, lines) && i < |lines|
    requires !(0 < i == |lines| - 1 && lines[i].comma.None?)
    ensures LeadOf(lines, i) <= LeadOf(lines, i + 1) <= |tokens|
    ensures RemoveLine(tokens, lines, i) == tokens[..LeadOf(lines, i)] + tokens[LeadOf(lines, i + 1)..]
  {
    Increasing(tokens, lines, i, i + 1);
    assert MemberHasLine(tokens, Children(tokens), lines, i);
  }

  lemma RemoveLastUncommaed(tokens: seq<Token>, lines: seq<MemberLine>, i: nat)
    requires WellFormed(tokens) && InLayout(tokens, lines) && Laid(tokens, lines)
    requires 0 < i == |lines| - 1 && lines[i].comma.None?
    ensures LeadOf(lines, 0) <= |tokens| && LeadOf(lines, |lines|) <= |tokens|
    ensures RemoveLine(tokens, lines, i)
         == Around(tokens, lines, Blocks(tokens, lines)[..i - 1] + [WithoutComma(Blocks(tokens, lines)[i - 1])])
  {
    var blocks := Blocks(tokens, lines);
    var bare := WithoutComma(blocks[i - 1]);
    RemovedLast(tokens, lines, i);
    CutAtLine(tokens, lines, i - 1);
    CutAtLine(tokens, lines, i + 1);
    AroundParts(tokens, lines, blocks[..i - 1], [bare], []);
    JoinedOne(bare);
    assert blocks[..i - 1] + [bare] + [] == blocks[..i - 1] + [bare];
  }

  lemma RemovedLastParts(tokens: seq<Token>, lines: seq<MemberLine>, i: nat, c: nat)
    requires InLayout(tokens, lines) && Laid(tokens, lines)
    requires 0 < i == |lines| - 1 && lines[i].comma.None? && lines[i - 1].comma == Some(c)
    ensures c < LeadOf(lines, i) <= LeadOf(lines, i + 1) <= |tokens|
    ensures RemoveLine(tokens, lines, i)
         == tokens[..c] + tokens[c + 1..LeadOf(lines, i)] + tokens[LeadOf(lines, i + 1)..]
  {
    assert MemberHasLine(tokens, Children(tokens), lines, i);
    Increasing(tokens, lines, i, i + 1);
    LastLineBounds(tokens, lines, i, c);
    RemoveLineTwice(tokens, lines, i, c);
  }

  lemma RemovedLast(tokens: seq<Token>, lines: seq<MemberLine>, i: nat)
    requires WellFormed(tokens) && InLayout(tokens, lines) && Laid(tokens, lines)
    requires 0 < i == |lines| - 1 && lines[i].comma.None?
    ensures LeadOf(lines, i - 1) <= |tokens| && LeadOf(lines, i + 1) <= |tokens|
    ensures RemoveLine(tokens, lines, i)
         == tokens[..LeadOf(lines, i - 1)] + WithoutComma(OwnLines(tokens, lines, i - 1))
            + tokens[LeadOf(lines, i + 1)..]
  {
    assert MemberHasLine(tokens, Children(tokens), lines, i - 1);
    var c := lines[i - 1].comma.value;
    RemovedLastParts(tokens, lines, i, c);
    OwnComma(tokens, lines, i - 1, c);
    WithoutOne(tokens, LeadOf(lines, i - 1), c, LeadOf(lines, i), LeadOf(lines, i + 1));
  }

  lemma WithoutOne(tokens: seq<Token>, p: nat, c: nat, q: nat, r: nat)
    requires p <= c < q <= r <= |tokens|
    ensures tokens[..c] + tokens[c + 1..q] + tokens[r..]
         == tokens[..p] + (tokens[p..c] + tokens[c + 1..q]) + tokens[r..]
  {
    assert tokens[..p] + tokens[p..c] == tokens[..c];
  }

  // Where every member ends its own line, removing one takes exactly its own lines, and one comma
  // when it was the last and had none: all other lines stay as they are, comments included.
  lemma RemoveAtTakesOwnLines(tokens: seq<Token>, lines: seq<MemberLine>, i: nat)
    requires WellFormed(tokens) && InLayout(tokens, lines) && i < |Items(tokens)| && |Items(tokens)| > 1
    ensures i < |lines| && LeadOf(lines, 0) <= |tokens| && LeadOf(lines, |lines|) <= |tokens|
    ensures RemoveAt(tokens, i)
         == Around(tokens, lines, LinesWithout(Blocks(tokens, lines), i, lines[i].comma.Some?))
  {
    LaidOut(tokens, lines);
    if 0 < i == |lines| - 1 && lines[i].comma.None? {
      RemoveLastUncommaed(tokens, lines, i);
    } else {
      RemoveWithComma(tokens, lines, i);
    }
  }

  // Otherwise the stretch up to the next member goes, or from the previous one for the last; and
  // everything goes with the only member.
  lemma RemoveAtInRow(tokens: seq<Token>, i: nat)
    requires i < |Items(tokens)| && Layout(tokens).None?
    ensures i + 1 < |Items(tokens)| ==> ItemIndex(tokens, i) < ItemIndex(tokens, i + 1)
    ensures 0 < i ==> ItemIndex(tokens, i - 1) < ItemIndex(tokens, i)
    ensures RemoveAt(tokens, i)
            == if |Items(tokens)| == 1 then []
               else if i + 1 < |Items(tokens)| then tokens[..ItemIndex(tokens, i)] + tokens[ItemIndex(tokens, i + 1)..]
               else tokens[..ItemIndex(tokens, i - 1) + 1] + tokens[ItemIndex(tokens, i) + 1..]
  {
    if i + 1 < |Items(tokens)| { ItemIndexOrdered(tokens, i, i + 1); }
    if 0 < i { ItemIndexOrdered(tokens, i - 1, i); }
  }

  lemma NotLaidOut(tokens: seq<Token>)
    ensures Layout(tokens).None? <==> forall lines :: !InLayout(tokens, lines)
  {
    ChildrenAreChildren(tokens);
    if Layout(tokens).Some? {
      LayoutIsExact(tokens, Children(tokens), Layout(tokens).value);
      assert InLayout(tokens, Layout(tokens).value);
    }
    forall lines | InLayout(tokens, lines) ensures Layout(tokens).Some? { LaidOut(tokens, lines); }
  }

  // ---------------------------------------------------------------- inserting into lines

  // The member nearest to the new one.
  function Near(count: nat, index: nat): nat
    requires count > 0
  {
    if index < count then index else count - 1
  }

  // The new member's own line: the blanks in front of its neighbour, and the first line's break.
  function NewLine(tokens: seq<Token>, lines: seq<MemberLine>, index: nat, item: Item, comma: bool): seq<Token>
    requires lines != [] && |lines| == |Items(tokens)| && lines[0].newline < |tokens|
  {
    Indent(tokens, ItemIndex(tokens, Near(|lines|, index))) + [Member(item)]
    + (if comma then [Comma] else []) + [tokens[lines[0].newline]]
  }

  // The lines with the new one at its place, the old last one with the comma it now needs.
  function LinesWith(blocks: seq<seq<Token>>, index: nat, line: seq<Token>, comma: bool): seq<seq<Token>>
    requires index <= |blocks|
  {
    if 0 < index == |blocks| && !comma then blocks[..index - 1] + [WithComma(blocks[index - 1]), line]
    else Sequences.With(blocks, index, line)
  }

  lemma {:induction false} MemberAt(block: seq<Token>, m: nat)
    requires m < |block| && block[m].Member? && Items(block[..m]) == []
    ensures WithComma(block) == block[..m + 1] + [Comma] + block[m + 1..]
  {
    if m > 0 {
      NoMembers(block[..m]);
      assert !block[..m][0].Member?;
      assert block[..m][1..] == block[1..][..m - 1];
      MemberAt(block[1..], m - 1);
      assert block[1..][..m] == block[1..m + 1] && block[1..][m..] == block[m + 1..];
    }
  }

  lemma MemberInside(tokens: seq<Token>, p: nat, m: nat, q: nat)
    requires p <= m < q <= |tokens| && tokens[m].Member? && Items(tokens[..p]) == Items(tokens[..m])
    ensures WithComma(tokens[p..q]) == tokens[p..m + 1] + [Comma] + tokens[m + 1..q]
  {
    assert tokens[..m] == tokens[..p] + tokens[p..m];
    ItemsAppend(tokens[..p], tokens[p..m]);
    var block := tokens[p..q];
    assert block[..m - p] == tokens[p..m];
    MemberAt(block, m - p);
    assert block[..m - p + 1] == tokens[p..m + 1] && block[m - p + 1..] == tokens[m + 1..q];
  }

  lemma OwnMember(tokens: seq<Token>, lines: seq<MemberLine>, k: nat)
    requires WellFormed(tokens) && InLayout(tokens, lines) && Laid(tokens, lines) && k < |lines|
    ensures var p, m, q := LeadOf(lines, k), ItemIndex(tokens, k), LeadOf(lines, k + 1);
            p <= m < q <= |tokens|
            && WithComma(OwnLines(tokens, lines, k)) == tokens[p..m + 1] + [Comma] + tokens[m + 1..q]
  {
    Ordered(tokens, lines, k);
    assert MemberHasLine(tokens, Children(tokens), lines, k);
    ItemsInFront(tokens, lines, k);
    ItemsBefore(tokens, k);
    MemberInside(tokens, LeadOf(lines, k), ItemIndex(tokens, k), LeadOf(lines, k + 1));
  }

  // What is inserted, and where.
  lemma InsertedLine(tokens: seq<Token>, lines: seq<MemberLine>, index: nat, item: Item)
    requires InLayout(tokens, lines) && Laid(tokens, lines) && index <= |lines|
    requires index == |lines| ==> lines[index - 1].comma.Some?
    ensures lines[0].newline < |tokens| && LeadOf(lines, index) <= |tokens|
    ensures InsertLine(tokens, lines, index, item)
         == tokens[..LeadOf(lines, index)] + NewLine(tokens, lines, index, item, true) + tokens[LeadOf(lines, index)..]
  {
    var near := Near(|lines|, index);
    Increasing(tokens, lines, index, index);
    assert MemberHasLine(tokens, Children(tokens), lines, 0) && MemberHasLine(tokens, Children(tokens), lines, near);
    var indent, eol := Indent(tokens, ItemIndex(tokens, near)), tokens[lines[0].newline];
    assert indent + [Member(item), Comma, eol] == indent + [Member(item)] + [Comma] + [eol];
  }

  lemma InsertIsAppended(tokens: seq<Token>, lines: seq<MemberLine>, index: nat, item: Item)
    requires InLayout(tokens, lines) && Laid(tokens, lines) && 0 < index == |lines| && lines[index - 1].comma.None?
    ensures lines[0].newline < |tokens| && ItemIndex(tokens, index - 1) < LeadOf(lines, index) <= |tokens|
    ensures InsertLine(tokens, lines, index, item)
         == Appended(tokens, ItemIndex(tokens, index - 1) + 1, LeadOf(lines, index),
                     NewLine(tokens, lines, index, item, false))
  {
    var k := index - 1;
    assert MemberHasLine(tokens, Children(tokens), lines, 0) && MemberHasLine(tokens, Children(tokens), lines, k);
    var indent, eol := Indent(tokens, ItemIndex(tokens, k)), tokens[lines[0].newline];
    assert NewLine(tokens, lines, index, item, false) == indent + [Member(item), eol];
  }

  lemma AppendedLine(tokens: seq<Token>, lines: seq<MemberLine>, index: nat, item: Item, p: nat)
    requires InLayout(tokens, lines) && Laid(tokens, lines) && 0 < index == |lines| && lines[index - 1].comma.None?
    requires p <= ItemIndex(tokens, index - 1)
    ensures lines[0].newline < |tokens| && ItemIndex(tokens, index - 1) < LeadOf(lines, index) <= |tokens|
    ensures var m, q := ItemIndex(tokens, index - 1), LeadOf(lines, index);
            InsertLine(tokens, lines, index, item)
            == tokens[..p] + ((tokens[p..m + 1] + [Comma] + tokens[m + 1..q])
                              + NewLine(tokens, lines, index, item, false)) + tokens[q..]
  {
    InsertIsAppended(tokens, lines, index, item);
    AppendedParts(tokens, p, ItemIndex(tokens, index - 1), LeadOf(lines, index),
                  NewLine(tokens, lines, index, item, false));
  }

  lemma AppendedParts(tokens: seq<Token>, p: nat, m: nat, q: nat, line: seq<Token>)
    requires p <= m < q <= |tokens|
    ensures Appended(tokens, m + 1, q, line)
         == tokens[..p] + ((tokens[p..m + 1] + [Comma] + tokens[m + 1..q]) + line) + tokens[q..]
  {
    assert tokens[..p] + tokens[p..m + 1] == tokens[..m + 1];
  }

  lemma AppendedAround(tokens: seq<Token>, lines: seq<MemberLine>, index: nat, item: Item)
    requires WellFormed(tokens) && InLayout(tokens, lines) && Laid(tokens, lines)
    requires 0 < index == |lines| && lines[index - 1].comma.None?
    ensures lines[0].newline < |tokens| && LeadOf(lines, 0) <= |tokens| && LeadOf(lines, |lines|) <= |tokens|
    ensures InsertLine(tokens, lines, index, item)
         == Around(tokens, lines, Blocks(tokens, lines)[..index - 1]
                   + [WithComma(Blocks(tokens, lines)[index - 1]), NewLine(tokens, lines, index, item, false)])
  {
    OwnMember(tokens, lines, index - 1);
    AppendedLine(tokens, lines, index, item, LeadOf(lines, index - 1));
    AroundLastTwo(tokens, lines, index, WithComma(Blocks(tokens, lines)[index - 1]),
                  NewLine(tokens, lines, index, item, false));
  }

  lemma AroundLastTwo(tokens: seq<Token>, lines: seq<MemberLine>, index: nat, a: seq<Token>, b: seq<Token>)
    requires InLayout(tokens, lines) && 0 < index == |lines|
    ensures LeadOf(lines, 0) <= LeadOf(lines, index - 1) <= LeadOf(lines, index) <= |tokens|
    ensures Around(tokens, lines, Blocks(tokens, lines)[..index - 1] + [a, b])
         == tokens[..LeadOf(lines, index - 1)] + (a + b) + tokens[LeadOf(lines, index)..]
  {
    var blocks := Blocks(tokens, lines);
    CutAtLine(tokens, lines, index - 1);
    CutAtLine(tokens, lines, index);
    AroundParts(tokens, lines, blocks[..index - 1], [a, b], []);
    JoinedTwo(a, b);
    assert blocks[..index - 1] + [a, b] + [] == blocks[..index - 1] + [a, b];
  }

  lemma InsertedAround(tokens: seq<Token>, lines: seq<MemberLine>, index: nat, item: Item)
    requires InLayout(tokens, lines) && Laid(tokens, lines) && index <= |lines|
    requires index == |lines| ==> lines[index - 1].comma.Some?
    ensures lines[0].newline < |tokens| && LeadOf(lines, 0) <= |tokens| && LeadOf(lines, |lines|) <= |tokens|
    ensures InsertLine(tokens, lines, index, item)
         == Around(tokens, lines,
                   Sequences.With(Blocks(tokens, lines), index, NewLine(tokens, lines, index, item, true)))
  {
    InsertedLine(tokens, lines, index, item);
    var blocks, line := Blocks(tokens, lines), NewLine(tokens, lines, index, item, true);
    CutAtLine(tokens, lines, index);
    AroundParts(tokens, lines, blocks[..index], [line], blocks[index..]);
    JoinedOne(line);
  }

  // Where every member ends its own line, a new member comes on a line of its own between the
  // others' lines, all of which stay as they are but for the comma the last one may need.
  lemma InsertAtKeepsTheLines(tokens: seq<Token>, lines: seq<MemberLine>, index: nat, item: Item, crlf: bool)
    requires WellFormed(tokens) && InLayout(tokens, lines) && index <= |Items(tokens)|
    ensures |lines| == |Items(tokens)| > 0 && LeadOf(lines, 0) <= |tokens| && LeadOf(lines, |lines|) <= |tokens|
    ensures lines[0].newline < |tokens|
    ensures var comma := index < |lines| || lines[|lines| - 1].comma.Some?;
            InsertAt(tokens, index, item, crlf)
            == Around(tokens, lines,
                      LinesWith(Blocks(tokens, lines), index, NewLine(tokens, lines, index, item, comma), comma))
  {
    LaidOut(tokens, lines);
    if index == |lines| && lines[index - 1].comma.None? {
      AppendedAround(tokens, lines, index, item);
    } else {
      InsertedAround(tokens, lines, index, item);
    }
  }

  lemma JoinedTwo(a: seq<Token>, b: seq<Token>)
    ensures Joined([a, b]) == a + b
  {
    assert [a, b][..1] == [a];
    JoinedOne(a);
  }

  // ---------------------------------------------------------------- inserting in a row

  ghost predicate IsComment(token: Token) {
    token.LineComment? || token.BlockComment?
  }

  lemma AddedInFront(item: Item, gap: seq<Token>)
    requires Plain(gap)
    ensures Items([Member(item), Comma] + gap) == [item]
    ensures forall k :: 0 <= k < |gap| + 2 ==> !IsComment(([Member(item), Comma] + gap)[k])
  {
    PlainFlows(AfterComma, gap);
    ItemsAppend([Member(item), Comma], gap);
    assert [Member(item), Comma][1..] == [Comma] && [Comma][1..] == [];
  }

  lemma AddedBehind(item: Item, gap: seq<Token>)
    requires Plain(gap)
    ensures Items([Comma] + gap + [Member(item)]) == [item]
    ensures forall k :: 0 <= k < |gap| + 2 ==> !IsComment(([Comma] + gap + [Member(item)])[k])
  {
    var added := [Comma] + gap + [Member(item)];
    assert added[1..] == gap + [Member(item)];
    PlainThenMember(gap, item);
    forall k | 0 <= k < |gap| + 2 ensures !IsComment(added[k]) {
      if 0 < k <= |gap| { assert added[k] == gap[k - 1]; }
    }
  }

  lemma PlainThenMember(gap: seq<Token>, item: Item)
    requires Plain(gap)
    ensures Items(gap + [Member(item)]) == [item]
  {
    PlainFlows(AfterComma, gap);
    ItemsAppend(gap, [Member(item)]);
    assert [Member(item)][1..] == [];
  }

  // What goes into a row, and where: behind the last member or in front of the one at `index`.
  lemma InsertAtInRow(tokens: seq<Token>, index: nat, item: Item, crlf: bool) returns (p: nat, added: seq<Token>)
    requires index <= |Items(tokens)| && Items(tokens) != [] && Layout(tokens).None?
    ensures p <= |tokens| && InsertAt(tokens, index, item, crlf) == tokens[..p] + added + tokens[p..]
    ensures p == if index < |Items(tokens)| then ItemIndex(tokens, index) else ItemIndex(tokens, index - 1) + 1
    ensures Items(added) == [item] && forall k :: 0 <= k < |added| ==> !IsComment(added[k])
  {
    var m := ItemIndex(tokens, Near(|Items(tokens)|, index));
    var gap := Gap(tokens, m, crlf);
    GapIsPlain(tokens, m, crlf);
    if index < |Items(tokens)| {
      AddedInFront(item, gap);
      p, added := m, [Member(item), Comma] + gap;
    } else {
      AddedBehind(item, gap);
      p, added := m + 1, [Comma] + gap + [Member(item)];
    }
  }

  // ---------------------------------------------------------------- whom a comment in a row follows

  // How many members stand in front of place `q`; the last of them is the one it follows.
  function Ahead(tokens: seq<Token>, q: nat): nat
    requires q <= |tokens|
  {
    |Items(tokens[..q])|
  }

  lemma AheadGrows(tokens: seq<Token>, p: nat, q: nat)
    requires p <= q <= |tokens|
    ensures Ahead(tokens, p) <= Ahead(tokens, q)
  {
    assert tokens[..q] == tokens[..p] + tokens[p..q];
    ItemsAppend(tokens[..p], tokens[p..q]);
  }

  lemma AheadOfMember(tokens: seq<Token>, i: nat)
    requires i < |Items(tokens)|
    ensures Ahead(tokens, ItemIndex(tokens, i)) == i && Ahead(tokens, ItemIndex(tokens, i) + 1) == i + 1
  {
    var m := ItemIndex(tokens, i);
    ItemsBefore(tokens, i);
    assert tokens[..m + 1] == tokens[..m] + [tokens[m]];
    ItemsAppend(tokens[..m], [tokens[m]]);
    assert [tokens[m]][1..] == [];
  }

  lemma AheadBehindAdded(tokens: seq<Token>, p: nat, added: seq<Token>, q: nat)
    requires p <= q <= |tokens|
    ensures var r := tokens[..p] + added + tokens[p..];
            q + |added| <= |r| && Ahead(r, q + |added|) == Ahead(tokens, q) + |Items(added)|
  {
    var r := tokens[..p] + added + tokens[p..];
    assert r[..q + |added|] == tokens[..p] + added + tokens[p..q] && tokens[..q] == tokens[..p] + tokens[p..q];
    ItemsAppend(tokens[..p] + added, tokens[p..q]);
    ItemsAppend(tokens[..p], added);
    ItemsAppend(tokens[..p], tokens[p..q]);
  }

  // The token at `q`, now at `q'`, follows the member it followed; members from `index` on have
  // moved up by one.
  ghost predicate KeepsHolder(tokens: seq<Token>, r: seq<Token>, index: nat, q: nat, q': nat) {
    && q < |tokens| && q' < |r| && r[q'] == tokens[q]
    && Ahead(r, q') == Ahead(tokens, q) + if Ahead(tokens, q) > index then 1 else 0
  }

  lemma HolderInRow(tokens: seq<Token>, index: nat, p: nat, added: seq<Token>, q: nat)
    requires index <= |Items(tokens)| && Items(tokens) != [] && |Items(added)| == 1
    requires p == if index < |Items(tokens)| then ItemIndex(tokens, index) else ItemIndex(tokens, index - 1) + 1
    requires q < |tokens| && !tokens[q].Member?
    ensures KeepsHolder(tokens, tokens[..p] + added + tokens[p..], index, q, if q < p then q else q + |added|)
            <==> index < |Items(tokens)| || q < p
  {
    var r := tokens[..p] + added + tokens[p..];
    if q < p {
      assert r[..q] == tokens[..q];
      AheadGrows(tokens, q, p);
    } else {
      AheadBehindAdded(tokens, p, added, q);
      if index < |Items(tokens)| { AheadGrows(tokens, p + 1, q); } else { AheadGrows(tokens, q, |tokens|); }
    }
    AheadOfMember(tokens, if index < |Items(tokens)| then index else index - 1);
    assert tokens[..|tokens|] == tokens;
  }

  // In a row every comment keeps following the member it followed, if and only if the new member
  // is not put behind a last member that comments follow: those come to follow the new one.
  lemma InsertInRowKeepsHolders(tokens: seq<Token>, index: nat, item: Item, crlf: bool)
    returns (p: nat, added: seq<Token>)
    requires index <= |Items(tokens)| && Items(tokens) != [] && Layout(tokens).None?
    ensures p <= |tokens| && InsertAt(tokens, index, item, crlf) == tokens[..p] + added + tokens[p..]
    ensures (forall q: nat :: q < |tokens| && IsComment(tokens[q]) ==>
               KeepsHolder(tokens, InsertAt(tokens, index, item, crlf), index, q, if q < p then q else q + |added|))
            <==> index < |Items(tokens)|
                 || forall q: nat :: ItemIndex(tokens, index - 1) < q < |tokens| ==> !IsComment(tokens[q])
  {
    p, added := InsertAtInRow(tokens, index, item, crlf);
    forall q: nat | q < |tokens| && IsComment(tokens[q])
      ensures KeepsHolder(tokens, InsertAt(tokens, index, item, crlf), index, q, if q < p then q else q + |added|)
              <==> index < |Items(tokens)| || q < p
    {
      HolderInRow(tokens, index, p, added, q);
    }
  }

  // An empty container is replaced as a whole: comments in it are lost.
  lemma InsertIntoEmpty(tokens: seq<Token>, item: Item, crlf: bool)
    requires Items(tokens) == []
    ensures InsertAt(tokens, 0, item, crlf) == [Member(item)]
  {
  }
}

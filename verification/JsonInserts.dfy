// Inserting a member next to another one, in its line's style or in a row.
module JsonInserts {
  import opened Prelude
  import opened JsonTokens
  import opened JsonLayout
  import opened JsonEdits
  import Sequences

  predicate Blank(token: Token) {
    token.Space? && forall i :: 0 <= i < |token.text| ==> token.text[i] == ' ' || token.text[i] == '\t'
  }

  // Where the blanks in front of position `m` start.
  function IndentStart(tokens: seq<Token>, m: nat): (at: nat)
    requires m <= |tokens|
    ensures at <= m
  {
    if m > 0 && Blank(tokens[m - 1]) then IndentStart(tokens, m - 1) else m
  }

  function Indent(tokens: seq<Token>, m: nat): seq<Token>
    requires m <= |tokens|
  {
    tokens[IndentStart(tokens, m)..m]
  }

  // Only blanks stand between the start of the line and position `m`.
  predicate OwnLine(tokens: seq<Token>, m: nat)
    requires m <= |tokens|
  {
    IndentStart(tokens, m) > 0 && tokens[IndentStart(tokens, m) - 1].Newline?
  }

  function Inserted(tokens: seq<Token>, p: nat, added: seq<Token>): seq<Token>
    requires p <= |tokens|
  {
    tokens[..p] + added + tokens[p..]
  }

  function InsertLine(tokens: seq<Token>, lines: seq<MemberLine>, index: nat, item: Item): seq<Token>
    requires Laid(tokens, lines) && index <= |lines|
  {
    var near := if index < |lines| then index else |lines| - 1;
    assert LaidAt(tokens, lines, near) && LaidAt(tokens, lines, 0);
    var m, line := ItemIndex(tokens, near), lines[near];
    var indent, eol := Indent(tokens, m), tokens[lines[0].newline];
    if index < |lines| then
      Inserted(tokens, line.leadStart, indent + [Member(item), Comma, eol])
    else if line.comma.Some? then
      Inserted(tokens, line.newline + 1, indent + [Member(item), Comma, eol])
    else
      Appended(tokens, m + 1, line.newline + 1, indent + [Member(item), eol])
  }

  // A comma behind the old last member, and the new line behind its line.
  function Appended(tokens: seq<Token>, p: nat, q: nat, line: seq<Token>): seq<Token>
    requires p <= q <= |tokens|
  {
    tokens[..p] + [Comma] + tokens[p..q] + line + tokens[q..]
  }

  // What separates the new member from its neighbour at `m`.
  function Gap(tokens: seq<Token>, m: nat, crlf: bool): seq<Token>
    requires m <= |tokens|
  {
    if OwnLine(tokens, m) then [Newline(crlf)] + Indent(tokens, m) else [Space(" ")]
  }

  function InsertInRow(tokens: seq<Token>, index: nat, item: Item, crlf: bool): seq<Token>
    requires index <= |Items(tokens)| && Items(tokens) != []
  {
    var near := if index < |Items(tokens)| then index else |Items(tokens)| - 1;
    var m := ItemIndex(tokens, near);
    var gap := Gap(tokens, m, crlf);
    if index < |Items(tokens)| then Inserted(tokens, m, [Member(item), Comma] + gap)
    else Inserted(tokens, m + 1, [Comma] + gap + [Member(item)])
  }

  // Inserts `item` in front of member `index`, or behind the last one. `crlf` is the
  // document's prevailing line ending.
  function InsertAt(tokens: seq<Token>, index: nat, item: Item, crlf: bool): seq<Token>
    requires index <= |Items(tokens)|
  {
    if Items(tokens) == [] then [Member(item)]
    else
      match Layout(tokens)
      case Some(lines) =>
        LayoutIsLaid(tokens, lines);
        InsertLine(tokens, lines, index, item)
      case None => InsertInRow(tokens, index, item, crlf)
  }

  // ---------------------------------------------------------------- proofs

  lemma {:induction false} AlsoAfterComma(tokens: seq<Token>)
    requires !Run(Start, tokens).Broken?
    ensures !Run(AfterComma, tokens).Broken?
  {
    if tokens != [] {
      if tokens[0].Comma? { BrokenStays(tokens[1..]); }
      if !tokens[0].Member? && !tokens[0].Comma? { AlsoAfterComma(tokens[1..]); }
    }
  }

  lemma InsertStretch(tokens: seq<Token>, p: nat, added: seq<Token>, s: Expect)
    requires WellFormed(tokens) && Cut(tokens, p) && Flows(Before(tokens, p), added, s)
    requires s == Before(tokens, p) || (Before(tokens, p).Start? && s.AfterComma?)
    ensures WellFormed(Inserted(tokens, p, added))
    ensures Items(Inserted(tokens, p, added)) == Items(tokens[..p]) + Items(added) + Items(tokens[p..])
  {
    FrontFlows(tokens, p);
    EndFlows(tokens, p);
    if s != Before(tokens, p) { AlsoAfterComma(tokens[p..]); }
    FlowsOn(Start, tokens[..p], Before(tokens, p), added, s);
    FlowsOn(Start, tokens[..p] + added, s, tokens[p..], Run(s, tokens[p..]));
  }

  ghost predicate Plain(tokens: seq<Token>) {
    forall k :: 0 <= k < |tokens| ==> tokens[k].Space? || tokens[k].Newline?
  }

  lemma PlainFlows(s: Expect, tokens: seq<Token>)
    requires Plain(tokens) && !s.Broken?
    ensures Flows(s, tokens, s) && Items(tokens) == []
  {
    assert Trivia(tokens);
    TriviaIsSilent(s, tokens);
  }

  lemma {:induction false} IndentIsPlain(tokens: seq<Token>, m: nat)
    requires m <= |tokens|
    ensures Plain(Indent(tokens, m))
  {
    if m > 0 && Blank(tokens[m - 1]) {
      IndentIsPlain(tokens, m - 1);
      assert Indent(tokens, m) == Indent(tokens, m - 1) + [tokens[m - 1]];
    }
  }

  lemma GapIsPlain(tokens: seq<Token>, m: nat, crlf: bool)
    requires m <= |tokens|
    ensures Plain(Gap(tokens, m, crlf))
  {
    IndentIsPlain(tokens, m);
  }

  lemma OneFlows(s: Expect, token: Token)
    requires !token.LineComment? && !Feed(s, token).Broken?
    ensures Flows(s, [token], Feed(s, token))
    ensures Items([token]) == if token.Member? then [token.item] else []
  {
    assert [token][1..] == [];
  }

  // Blanks, a member, a comma and a line break.
  lemma NewLineFlows(s: Expect, indent: seq<Token>, item: Item, eol: Token)
    requires Plain(indent) && eol.Newline? && (s.Start? || s.AfterComma?)
    ensures Flows(s, indent + [Member(item), Comma, eol], AfterComma)
    ensures Items(indent + [Member(item), Comma, eol]) == [item]
    ensures Flows(s, indent + [Member(item), eol], AfterItem)
    ensures Items(indent + [Member(item), eol]) == [item]
  {
    PlainFlows(s, indent);
    OneFlows(s, Member(item));
    OneFlows(AfterItem, Comma);
    OneFlows(AfterItem, eol);
    OneFlows(AfterComma, eol);
    FlowsOn(s, indent, s, [Member(item)], AfterItem);
    var upto := indent + [Member(item)];
    FlowsOn(s, upto, AfterItem, [eol], AfterItem);
    FlowsOn(s, upto, AfterItem, [Comma], AfterComma);
    FlowsOn(s, upto + [Comma], AfterComma, [eol], AfterComma);
    assert indent + [Member(item), Comma, eol] == upto + [Comma] + [eol];
    assert indent + [Member(item), eol] == upto + [eol];
  }

  lemma RowFrontFlows(s: Expect, gap: seq<Token>, item: Item)
    requires Plain(gap) && (s.Start? || s.AfterComma?)
    ensures Flows(s, [Member(item), Comma] + gap, AfterComma) && Items([Member(item), Comma] + gap) == [item]
  {
    OneFlows(s, Member(item));
    OneFlows(AfterItem, Comma);
    PlainFlows(AfterComma, gap);
    FlowsOn(s, [Member(item)], AfterItem, [Comma], AfterComma);
    FlowsOn(s, [Member(item)] + [Comma], AfterComma, gap, AfterComma);
    assert [Member(item)] + [Comma] == [Member(item), Comma];
  }

  lemma RowBackFlows(gap: seq<Token>, item: Item)
    requires Plain(gap)
    ensures Flows(AfterItem, [Comma] + gap + [Member(item)], AfterItem)
            && Items([Comma] + gap + [Member(item)]) == [item]
  {
    OneFlows(AfterItem, Comma);
    PlainFlows(AfterComma, gap);
    OneFlows(AfterComma, Member(item));
    FlowsOn(AfterItem, [Comma], AfterComma, gap, AfterComma);
    FlowsOn(AfterItem, [Comma] + gap, AfterComma, [Member(item)], AfterItem);
  }

  lemma InsertInRowInserts(tokens: seq<Token>, index: nat, item: Item, crlf: bool)
    requires WellFormed(tokens) && index <= |Items(tokens)| && Items(tokens) != []
    ensures WellFormed(InsertInRow(tokens, index, item, crlf))
    ensures Items(InsertInRow(tokens, index, item, crlf)) == Sequences.With(Items(tokens), index, item)
  {
    var near := if index < |Items(tokens)| then index else |Items(tokens)| - 1;
    var m := ItemIndex(tokens, near);
    var gap := Gap(tokens, m, crlf);
    GapIsPlain(tokens, m, crlf);
    if index < |Items(tokens)| {
      InsertBefore(tokens, index, gap, item);
    } else {
      InsertBehind(tokens, near, gap, item);
    }
  }

  lemma InsertBefore(tokens: seq<Token>, i: nat, gap: seq<Token>, item: Item)
    requires WellFormed(tokens) && i < |Items(tokens)| && Plain(gap)
    ensures var r := Inserted(tokens, ItemIndex(tokens, i), [Member(item), Comma] + gap);
            WellFormed(r) && Items(r) == Sequences.With(Items(tokens), i, item)
  {
    var m := ItemIndex(tokens, i);
    StateAtItem(tokens, i);
    CutAtItem(tokens, i);
    RowFrontFlows(Before(tokens, m), gap, item);
    InsertStretch(tokens, m, [Member(item), Comma] + gap, AfterComma);
    ItemsBefore(tokens, i);
    ItemsSplit(tokens, m);
  }

  lemma InsertBehind(tokens: seq<Token>, i: nat, gap: seq<Token>, item: Item)
    requires WellFormed(tokens) && i + 1 == |Items(tokens)| && Plain(gap)
    ensures var r := Inserted(tokens, ItemIndex(tokens, i) + 1, [Comma] + gap + [Member(item)]);
            WellFormed(r) && Items(r) == Sequences.With(Items(tokens), i + 1, item)
  {
    var m := ItemIndex(tokens, i);
    StateAtItem(tokens, i);
    CutAtItem(tokens, i);
    RowBackFlows(gap, item);
    InsertStretch(tokens, m + 1, [Comma] + gap + [Member(item)], AfterItem);
    BetweenItems(tokens, i, m + 1);
  }

  lemma InsertLineBefore(tokens: seq<Token>, lines: seq<MemberLine>, i: nat, indent: seq<Token>, item: Item, eol: Token)
    requires WellFormed(tokens) && Laid(tokens, lines) && i < |lines| && Plain(indent) && eol.Newline?
    requires lines[i].leadStart <= |tokens|
    ensures var r := Inserted(tokens, lines[i].leadStart, indent + [Member(item), Comma, eol]);
            WellFormed(r) && Items(r) == Sequences.With(Items(tokens), i, item)
  {
    var p := lines[i].leadStart;
    StateInFront(tokens, lines, i);
    CutInFront(tokens, lines, i);
    ItemsInFront(tokens, lines, i);
    NewLineFlows(Before(tokens, p), indent, item, eol);
    InsertStretch(tokens, p, indent + [Member(item), Comma, eol], AfterComma);
    ItemsSplit(tokens, p);
  }

  lemma InsertLineBehind(tokens: seq<Token>, i: nat, line: MemberLine, indent: seq<Token>, item: Item, eol: Token)
    requires WellFormed(tokens) && Owns(tokens, i, line) && Plain(indent) && eol.Newline? && line.comma.Some?
    ensures var r := Inserted(tokens, line.newline + 1, indent + [Member(item), Comma, eol]);
            WellFormed(r) && Items(r) == Sequences.With(Items(tokens), i + 1, item)
  {
    var p := line.newline + 1;
    StateBehind(tokens, i, line);
    ItemsAroundLine(tokens, i, line);
    NewLineFlows(AfterComma, indent, item, eol);
    InsertStretch(tokens, p, indent + [Member(item), Comma, eol], AfterComma);
  }

  // The old last member gets its comma, the new one goes without.
  lemma InsertLastLine(tokens: seq<Token>, i: nat, line: MemberLine, indent: seq<Token>, item: Item, eol: Token)
    requires WellFormed(tokens) && Owns(tokens, i, line) && Plain(indent) && eol.Newline? && line.comma.None?
    ensures var m, end := ItemIndex(tokens, i), line.newline + 1;
            var r := Appended(tokens, m + 1, end, indent + [Member(item), eol]);
            WellFormed(r) && Items(r) == Sequences.With(Items(tokens), i + 1, item)
  {
    NewLineFlows(AfterComma, indent, item, eol);
    AppendAtLine(tokens, i, line, ItemIndex(tokens, i) + 1, line.newline + 1, indent + [Member(item), eol]);
    BetweenItems(tokens, i, ItemIndex(tokens, i) + 1);
    ItemsAroundLine(tokens, i, line);
  }

  lemma AppendAtLine(tokens: seq<Token>, i: nat, line: MemberLine, p: nat, q: nat, added: seq<Token>)
    requires WellFormed(tokens) && Owns(tokens, i, line) && line.comma.None? && Flows(AfterComma, added, AfterItem)
    requires p == ItemIndex(tokens, i) + 1 && q == line.newline + 1
    ensures WellFormed(Appended(tokens, p, q, added))
    ensures Items(Appended(tokens, p, q, added)) == Items(tokens[..p]) + Items(added) + Items(tokens[q..])
  {
    StateAtItem(tokens, i);
    CutAtItem(tokens, i);
    NoCommaState(tokens, i, line);
    TailFlowsAfterComma(tokens, i, line);
    AppendedFlows(tokens, p, q, added);
  }

  lemma AppendedFlows(tokens: seq<Token>, p: nat, q: nat, line: seq<Token>)
    requires WellFormed(tokens) && p <= q <= |tokens| && Cut(tokens, p)
    requires Before(tokens, p).AfterItem? && Before(tokens, q).AfterItem?
    requires Flows(AfterComma, tokens[p..q], AfterComma) && Flows(AfterComma, line, AfterItem)
             && Items(tokens[p..q]) == []
    ensures WellFormed(Appended(tokens, p, q, line))
    ensures Items(Appended(tokens, p, q, line)) == Items(tokens[..p]) + Items(line) + Items(tokens[q..])
  {
    FrontFlows(tokens, p);
    EndFlows(tokens, q);
    OneFlows(AfterItem, Comma);
    var a, b := tokens[..p], tokens[p..q];
    FlowsOn(Start, a, AfterItem, [Comma], AfterComma);
    FlowsOn(Start, a + [Comma], AfterComma, b, AfterComma);
    FlowsOn(Start, a + [Comma] + b, AfterComma, line, AfterItem);
    FlowsOn(Start, a + [Comma] + b + line, AfterItem, tokens[q..], Run(Start, tokens));
  }

  lemma TailFlowsAfterComma(tokens: seq<Token>, i: nat, line: MemberLine)
    requires WellFormed(tokens) && Owns(tokens, i, line) && line.comma.None?
    ensures Flows(AfterComma, tokens[ItemIndex(tokens, i) + 1..line.newline + 1], AfterComma)
    ensures Items(tokens[ItemIndex(tokens, i) + 1..line.newline + 1]) == []
  {
    var m, end := ItemIndex(tokens, i), line.newline + 1;
    GapWithin(tokens, i, m + 1, end);
    StateAtItem(tokens, i);
    NoCommaState(tokens, i, line);
    SliceFlows(tokens, m + 1, end);
    NoItemsRun(tokens[m + 1..end]);
    TriviaIsSilent(AfterComma, tokens[m + 1..end]);
  }

  lemma InsertLineInserts(tokens: seq<Token>, lines: seq<MemberLine>, index: nat, item: Item)
    requires WellFormed(tokens) && Laid(tokens, lines) && index <= |lines|
    ensures WellFormed(InsertLine(tokens, lines, index, item))
    ensures Items(InsertLine(tokens, lines, index, item)) == Sequences.With(Items(tokens), index, item)
  {
    var near := if index < |lines| then index else |lines| - 1;
    assert LaidAt(tokens, lines, near) && LaidAt(tokens, lines, 0);
    var indent, eol := Indent(tokens, ItemIndex(tokens, near)), tokens[lines[0].newline];
    IndentIsPlain(tokens, ItemIndex(tokens, near));
    if index < |lines| {
      InsertLineBefore(tokens, lines, index, indent, item, eol);
    } else if lines[near].comma.Some? {
      InsertLineBehind(tokens, near, lines[near], indent, item, eol);
    } else {
      InsertLastLine(tokens, near, lines[near], indent, item, eol);
    }
  }

  lemma OnlyMember(item: Item)
    ensures WellFormed([Member(item)]) && Items([Member(item)]) == [item]
  {
    OneFlows(Start, Member(item));
  }

  lemma WithFirst(item: Item)
    ensures Sequences.With([], 0, item) == [item]
  {}

  // The text stays a container, and `item` stands at `index` among the old members.
  lemma InsertAtInserts(tokens: seq<Token>, index: nat, item: Item, crlf: bool)
    requires WellFormed(tokens) && index <= |Items(tokens)|
    ensures WellFormed(InsertAt(tokens, index, item, crlf))
    ensures Items(InsertAt(tokens, index, item, crlf)) == Sequences.With(Items(tokens), index, item)
  {
    var r := InsertAt(tokens, index, item, crlf);
    if Items(tokens) == [] {
      OnlyMember(item);
      WithFirst(item);
      assert r == [Member(item)];
    } else {
      var layout := Layout(tokens);
      if layout.Some? {
        LayoutIsLaid(tokens, layout.value);
        InsertLineInserts(tokens, layout.value, index, item);
        assert r == InsertLine(tokens, layout.value, index, item);
      } else {
        InsertInRowInserts(tokens, index, item, crlf);
        assert r == InsertInRow(tokens, index, item, crlf);
      }
    }
  }
}

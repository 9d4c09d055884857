// The container inside a live document: every edit splices the text in place.
module JsonDocument {
  import opened Prelude
  import opened JsonTokens
  import opened JsonLayout
  import opened JsonEdits
  import opened JsonInserts
  import opened JsonMoves

  // The indexes of the matching members among the first `k`.
  function IndexesOf(items: seq<Item>, drop: Item -> bool, k: nat): seq<nat>
    requires k <= |items|
    decreases k
  {
    if k == 0 then []
    else IndexesOf(items, drop, k - 1) + if drop(items[k - 1]) then [k - 1] else []
  }

  lemma {:induction false} IndexesOfFront(a: seq<Item>, b: seq<Item>, drop: Item -> bool, k: nat)
    requires k <= |a| && k <= |b| && a[..k] == b[..k]
    ensures IndexesOf(a, drop, k) == IndexesOf(b, drop, k)
    decreases k
  {
    if k > 0 {
      assert a[..k - 1] == a[..k][..k - 1] && b[..k - 1] == b[..k][..k - 1];
      assert a[k - 1] == a[..k][k - 1] && b[k - 1] == b[..k][k - 1];
      IndexesOfFront(a, b, drop, k - 1);
    }
  }

  // Removing the last match leaves the matches before it to be removed.
  lemma {:induction false} LastMatch(tokens: seq<Token>, drop: Item -> bool, k: nat, matches: seq<nat>, j: nat)
    requires WellFormed(tokens) && k <= |Items(tokens)| && IndexesOf(Items(tokens), drop, k) == matches + [j]
    ensures j < k && IndexesOf(Items(tokens), drop, j) == matches
    ensures WellFormed(RemoveAt(tokens, j)) && Items(RemoveAt(tokens, j)) == Items(tokens)[..j] + Items(tokens)[j + 1..]
    ensures RemoveMatches(tokens, drop, k) == RemoveMatches(RemoveAt(tokens, j), drop, j)
    decreases k
  {
    var items := Items(tokens);
    if drop(items[k - 1]) {
      var before := IndexesOf(items, drop, k - 1);
      assert before + [k - 1] == matches + [j];
      assert (before + [k - 1])[|before|] == (matches + [j])[|matches|] && before == (before + [k - 1])[..|before|];
      assert matches == (matches + [j])[..|matches|];
      RemoveAtRemoves(tokens, j);
    } else {
      LastMatch(tokens, drop, k - 1, matches, j);
    }
  }

  lemma {:induction false} NoMatches(tokens: seq<Token>, drop: Item -> bool, k: nat)
    requires WellFormed(tokens) && k <= |Items(tokens)| && IndexesOf(Items(tokens), drop, k) == []
    ensures RemoveMatches(tokens, drop, k) == tokens
    decreases k
  {
    if k > 0 { NoMatches(tokens, drop, k - 1); }
  }

  lemma SpliceTwice(tokens: seq<Token>, p: nat, added: seq<Token>, q: nat)
    requires q <= p <= |tokens|
    ensures (tokens[..p] + added + tokens[p..])[..q] == tokens[..q]
    ensures (tokens[..p] + added + tokens[p..])[q..] == tokens[q..p] + added + tokens[p..]
    ensures Appended(tokens, q, p, added) == tokens[..q] + [Comma] + (tokens[q..p] + added + tokens[p..])
  {}

  class ContainerText {
    var tokens: seq<Token>

    constructor (text: seq<Token>)
      ensures tokens == text
    {
      tokens := text;
    }

    method Splice(start: nat, stop: nat, content: seq<Token>)
      requires start <= stop <= |tokens|
      modifies this
      ensures tokens == old(tokens[..start]) + content + old(tokens[stop..])
    {
      tokens := tokens[..start] + content + tokens[stop..];
    }

    // Just past the separator comma in the stretch, or its start when there is none; `JsonSeparator`
    // has the search on characters.
    method AfterComma(start: nat, end: nat) returns (after: nat)
      requires start <= end <= |tokens|
      ensures FirstComma(tokens, start, end) == if after > start then Some(after - 1) else None
      ensures start <= after <= end
    {
      var index := start;
      while index < end
        invariant start <= index <= end
        invariant FirstComma(tokens, start, end) == FirstComma(tokens, index, end)
      {
        if tokens[index].Comma? { return index + 1; }
        index := index + 1;
      }
      return start;
    }

    // The position of the next line break, or the end.
    method IndexOfNewline(from: nat) returns (at: nat)
      requires from <= |tokens|
      ensures at == NextNewline(tokens, from)
    {
      at := from;
      while at < |tokens| && !tokens[at].Newline?
        invariant from <= at <= |tokens|
        invariant NextNewline(tokens, from) == NextNewline(tokens, at)
      {
        at := at + 1;
      }
    }

    // The line of the member at `member` whose successor starts at `next`.
    method MeasureLine(member: nat, next: nat, last: bool, leadStart: nat) returns (line: Option<MemberLine>)
      requires member < |tokens|
      ensures line == LineBetween(tokens, member, next, last, leadStart)
    {
      var newline := IndexOfNewline(member + 1);
      if newline == |tokens| || newline >= next { return None; }
      var after := AfterComma(member + 1, newline);
      var comma := if after > member + 1 then Some(after - 1) else None;
      if comma.None? && !last { return None; }
      return Some(MemberLine(leadStart, comma, newline));
    }

    method MeasureLines() returns (layout: Option<seq<MemberLine>>)
      ensures layout == Layout(tokens)
    {
      ChildrenAreChildren(tokens);
      var children := Children(tokens);
      var first := IndexOfNewline(0);
      if |children| == 0 || first >= children[0] { return None; }
      var leadStart: nat, lines := first + 1, [];
      ghost var whole := LinesFrom(tokens, children, 0, leadStart);
      assert Layout(tokens) == whole;
      PrependNothing(whole);
      for i := 0 to |children|
        invariant whole == Prepended(lines, LinesFrom(tokens, children, i, leadStart))
      {
        LineStep(tokens, children, i, leadStart, lines);
        var line := MeasureLine(children[i], NextMember(tokens, children, i), i + 1 == |children|, leadStart);
        if line.None? { return None; }
        lines := lines + [line.value];
        leadStart := line.value.newline + 1;
      }
      assert lines + [] == lines;
      return Some(lines);
    }

    method RemoveMember(index: nat)
      requires WellFormed(tokens) && index < |Items(tokens)|
      modifies this
      ensures tokens == RemoveAt(old(tokens), index)
      ensures WellFormed(tokens) && Items(tokens) == old(Items(tokens)[..index]) + old(Items(tokens)[index + 1..])
    {
      RemoveAtRemoves(tokens, index);
      var layout := MeasureLines();
      if |Items(tokens)| == 1 {
        Splice(0, |tokens|, []);
      } else if layout.Some? {
        LayoutIsLaid(tokens, layout.value);
        RemoveMemberLine(layout.value, index);
      } else {
        RemoveRow(index);
      }
    }

    method RemoveMemberLine(lines: seq<MemberLine>, index: nat)
      requires Laid(tokens, lines) && index < |lines|
      modifies this
      ensures tokens == RemoveLine(old(tokens), lines, index)
    {
      ghost var was := tokens;
      assert LaidAt(tokens, lines, index);
      var previous := PreviousComma(lines, index);
      var start, stop := lines[index].leadStart, lines[index].newline + 1;
      Splice(start, stop, []);
      assert tokens == Dropped(was, start, stop);
      if previous.Some? {
        assert LaidAt(was, lines, index - 1);
        Splice(previous.value, previous.value + 1, []);
        assert tokens == Dropped(Dropped(was, start, stop), previous.value, previous.value + 1);
      }
    }

    method RemoveRow(index: nat)
      requires index < |Items(tokens)| && |Items(tokens)| > 1
      modifies this
      ensures tokens == RemoveInRow(old(tokens), index)
    {
      ghost var was := tokens;
      var children := Children(tokens);
      if index + 1 < |children| {
        ItemIndexOrdered(tokens, index, index + 1);
        Splice(children[index], children[index + 1], []);
        assert tokens == Dropped(was, children[index], children[index + 1]);
      } else {
        ItemIndexOrdered(tokens, index - 1, index);
        Splice(children[index - 1] + 1, children[index] + 1, []);
        assert tokens == Dropped(was, children[index - 1] + 1, children[index] + 1);
      }
    }

    method InsertMemberLine(lines: seq<MemberLine>, index: nat, item: Item)
      requires Laid(tokens, lines) && index <= |lines|
      modifies this
      ensures tokens == InsertLine(old(tokens), lines, index, item)
    {
      var near := if index < |lines| then index else |lines| - 1;
      assert LaidAt(tokens, lines, near) && LaidAt(tokens, lines, 0);
      var member, at := ItemIndex(tokens, near), lines[near];
      var indent, eol := Indent(tokens, member), tokens[lines[0].newline];
      if index < |lines| {
        Splice(at.leadStart, at.leadStart, indent + [Member(item), Comma, eol]);
        return;
      }
      if at.comma.None? {
        AppendLine(member + 1, at.newline + 1, indent + [Member(item), eol]);
      } else {
        Splice(at.newline + 1, at.newline + 1, indent + [Member(item), Comma, eol]);
      }
    }

    method AppendLine(memberEnd: nat, lineEnd: nat, line: seq<Token>)
      requires memberEnd <= lineEnd <= |tokens|
      modifies this
      ensures tokens == Appended(old(tokens), memberEnd, lineEnd, line)
    {
      SpliceTwice(tokens, lineEnd, line, memberEnd);
      Splice(lineEnd, lineEnd, line);
      Splice(memberEnd, memberEnd, [Comma]);
    }

    method InsertMember(index: nat, item: Item, crlf: bool)
      requires WellFormed(tokens) && index <= |Items(tokens)|
      modifies this
      ensures tokens == InsertAt(old(tokens), index, item, crlf)
      ensures WellFormed(tokens) && Items(tokens) == old(Items(tokens)[..index]) + [item] + old(Items(tokens)[index..])
    {
      InsertAtInserts(tokens, index, item, crlf);
      var children := Children(tokens);
      if |children| == 0 {
        Splice(0, |tokens|, [Member(item)]);
        return;
      }
      var layout := MeasureLines();
      if layout.Some? {
        LayoutIsLaid(tokens, layout.value);
        InsertMemberLine(layout.value, index, item);
        return;
      }
      InsertMemberInRow(index, item, crlf);
    }

    method InsertMemberInRow(index: nat, item: Item, crlf: bool)
      requires index <= |Items(tokens)| && Items(tokens) != []
      modifies this
      ensures tokens == InsertInRow(old(tokens), index, item, crlf)
    {
      var children := Children(tokens);
      var anchor := children[if index < |children| then index else |children| - 1];
      var gap := Gap(tokens, anchor, crlf);
      if index < |children| {
        Splice(anchor, anchor, [Member(item), Comma] + gap);
      } else {
        Splice(anchor + 1, anchor + 1, [Comma] + gap + [Member(item)]);
      }
    }

    method MoveMember(from: nat, target: nat, rendered: Item, crlf: bool)
      requires WellFormed(tokens) && from < |Items(tokens)| && target < |Items(tokens)|
      modifies this
      ensures tokens == MoveItem(old(tokens), from, target, rendered, crlf)
      ensures WellFormed(tokens)
    {
      if from == target { return; }
      RemoveMember(from);
      InsertMember(target, rendered, crlf);
    }

    method RemoveValue(drop: Item -> bool)
      requires WellFormed(tokens)
      modifies this
      ensures tokens == RemoveMatches(old(tokens), drop, |old(Items(tokens))|)
      ensures WellFormed(tokens)
    {
      ghost var was := tokens;
      ghost var k: nat := |Items(tokens)|;
      var items, matches := Items(tokens), [];
      for i := 0 to |items|
        invariant matches == IndexesOf(items, drop, i)
      {
        if drop(items[i]) { matches := matches + [i]; }
      }
      var left := |matches|;
      assert matches[..left] == matches;
      while left > 0
        invariant left <= |matches| && WellFormed(tokens) && k <= |Items(tokens)|
        invariant matches[..left] == IndexesOf(Items(tokens), drop, k)
        invariant RemoveMatches(was, drop, |Items(was)|) == RemoveMatches(tokens, drop, k)
      {
        var index := matches[left - 1];
        assert matches[..left] == matches[..left - 1] + [index];
        LastMatch(tokens, drop, k, matches[..left - 1], index);
        IndexesOfFront(Items(tokens), Items(RemoveAt(tokens, index)), drop, index);
        RemoveMember(index);
        k := index;
        left := left - 1;
      }
      NoMatches(tokens, drop, k);
    }
  }

  function Prepended(lines: seq<MemberLine>, rest: Option<seq<MemberLine>>): Option<seq<MemberLine>> {
    if rest.None? then None else Some(lines + rest.value)
  }

  // One turn of the measuring loop.
  lemma LineStep(tokens: seq<Token>, children: seq<nat>, i: nat, leadStart: nat, lines: seq<MemberLine>)
    requires AreChildren(tokens, children) && i < |children|
    ensures Prepended(lines, LinesFrom(tokens, children, i, leadStart))
         == match LineBetween(tokens, children[i], NextMember(tokens, children, i), i + 1 == |children|, leadStart)
            case None => None
            case Some(line) => Prepended(lines + [line], LinesFrom(tokens, children, i + 1, line.newline + 1))
  {
    var line := LineBetween(tokens, children[i], NextMember(tokens, children, i), i + 1 == |children|, leadStart);
    if line.Some? {
      PrependLine(lines, line.value, LinesFrom(tokens, children, i + 1, line.value.newline + 1));
    }
  }

  lemma PrependNothing(rest: Option<seq<MemberLine>>)
    ensures Prepended([], rest) == rest
  {
    if rest.Some? { assert [] + rest.value == rest.value; }
  }

  lemma PrependLine(lines: seq<MemberLine>, line: MemberLine, rest: Option<seq<MemberLine>>)
    ensures Prepended(lines, Prepended([line], rest)) == Prepended(lines + [line], rest)
  {
    if rest.Some? { assert lines + ([line] + rest.value) == lines + [line] + rest.value; }
  }
}

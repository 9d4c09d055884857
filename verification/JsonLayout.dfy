// The line-per-member layout: a member owns the comment lines above it and the trailing
// comment on its last line.
module JsonLayout {
  import opened Prelude
  import opened JsonTokens

  // Token positions: the start of the lines above the member, its comma, and the line break
  // that ends its last line.
  datatype MemberLine = MemberLine(leadStart: nat, comma: Option<nat>, newline: nat)

  predicate NotNewline(tokens: seq<Token>, k: nat) {
    k < |tokens| && !tokens[k].Newline?
  }

  predicate NotComma(tokens: seq<Token>, k: nat) {
    k < |tokens| && !tokens[k].Comma?
  }

  ghost predicate NoNewline(tokens: seq<Token>, from: nat, end: nat) {
    from <= end <= |tokens| && forall k: nat :: from <= k < end ==> NotNewline(tokens, k)
  }

  ghost predicate NoComma(tokens: seq<Token>, from: nat, end: nat) {
    from <= end <= |tokens| && forall k: nat :: from <= k < end ==> NotComma(tokens, k)
  }

  function NextNewline(tokens: seq<Token>, from: nat): (at: nat)
    requires from <= |tokens|
    ensures from <= at <= |tokens| && (at < |tokens| ==> tokens[at].Newline?)
    ensures NoNewline(tokens, from, at)
    decreases |tokens| - from
  {
    if from == |tokens| || tokens[from].Newline? then from else NextNewline(tokens, from + 1)
  }

  function FirstComma(tokens: seq<Token>, from: nat, end: nat): (comma: Option<nat>)
    requires from <= end <= |tokens|
    ensures comma.Some? ==> from <= comma.value < end && tokens[comma.value].Comma?
    ensures NoComma(tokens, from, if comma.Some? then comma.value else end)
    decreases end - from
  {
    if from == end then None
    else if tokens[from].Comma? then Some(from)
    else FirstComma(tokens, from + 1, end)
  }

  // `children` holds the token positions of the members, in order.
  ghost predicate AreChildren(tokens: seq<Token>, children: seq<nat>) {
    && (forall i :: 0 <= i < |children| ==> children[i] < |tokens|)
    && (forall i, j :: 0 <= i < j < |children| ==> children[i] < children[j])
  }

  // Where the next member starts, or the container ends.
  function NextMember(tokens: seq<Token>, children: seq<nat>, i: nat): nat {
    if i + 1 < |children| then children[i + 1] else |tokens|
  }

  // The line of a member at `m` whose successor starts at `next`.
  function LineBetween(tokens: seq<Token>, m: nat, next: nat, last: bool, leadStart: nat): Option<MemberLine>
    requires m < |tokens|
  {
    var newline := NextNewline(tokens, m + 1);
    if newline >= next || newline == |tokens| then None
    else
      var comma := FirstComma(tokens, m + 1, newline);
      if comma.None? && !last then None else Some(MemberLine(leadStart, comma, newline))
  }

  function LinesFrom(tokens: seq<Token>, children: seq<nat>, i: nat, leadStart: nat): (lines: Option<seq<MemberLine>>)
    requires AreChildren(tokens, children) && i <= |children|
    ensures lines.Some? ==> |lines.value| == |children| - i
    decreases |children| - i
  {
    if i == |children| then Some([])
    else
      var line := LineBetween(tokens, children[i], NextMember(tokens, children, i), i + 1 == |children|, leadStart);
      if line.None? then None
      else
        var rest := LinesFrom(tokens, children, i + 1, line.value.newline + 1);
        if rest.None? then None else Some([line.value] + rest.value)
  }

  function LineLayout(tokens: seq<Token>, children: seq<nat>): Option<seq<MemberLine>>
    requires AreChildren(tokens, children)
  {
    var first := NextNewline(tokens, 0);
    if children == [] || first >= children[0] then None else LinesFrom(tokens, children, 0, first + 1)
  }

  // ---------------------------------------------------------------- what a layout is

  ghost predicate IsLine(tokens: seq<Token>, m: nat, next: nat, last: bool, line: MemberLine) {
    && m < line.newline < next <= |tokens|
    && tokens[line.newline].Newline?
    && NoNewline(tokens, m + 1, line.newline)
    && (line.comma.None? ==> last && NoComma(tokens, m + 1, line.newline))
    && (line.comma.Some? ==> m < line.comma.value < line.newline && tokens[line.comma.value].Comma?)
    && (line.comma.Some? ==> NoComma(tokens, m + 1, line.comma.value))
  }

  // Where the lines of member `i` start.
  function LeadOf(lines: seq<MemberLine>, i: nat): nat
    requires 0 < |lines| && i <= |lines|
  {
    if i == 0 then lines[0].leadStart else lines[i - 1].newline + 1
  }

  ghost predicate MemberHasLine(tokens: seq<Token>, children: seq<nat>, lines: seq<MemberLine>, i: nat) {
    && i < |lines| == |children|
    && IsLine(tokens, children[i], NextMember(tokens, children, i), i + 1 == |children|, lines[i])
    && lines[i].leadStart == LeadOf(lines, i)
  }

  // Every member ends its own line, with its comma on that line, below the opening bracket.
  ghost predicate IsLayout(tokens: seq<Token>, children: seq<nat>, lines: seq<MemberLine>) {
    && AreChildren(tokens, children)
    && |lines| == |children| > 0
    && (forall i: nat :: i < |lines| ==> MemberHasLine(tokens, children, lines, i))
    && 0 < lines[0].leadStart <= children[0]
    && tokens[lines[0].leadStart - 1].Newline?
    && NoNewline(tokens, 0, lines[0].leadStart - 1)
  }

  lemma Uncons(lines: seq<MemberLine>, i: nat)
    requires i < |lines|
    ensures lines[i..] == [lines[i]] + lines[i + 1..] && lines[i..][1..] == lines[i + 1..]
  {}

  lemma NextNewlineIs(tokens: seq<Token>, from: nat, at: nat)
    requires from <= at < |tokens| && tokens[at].Newline? && NoNewline(tokens, from, at)
    ensures NextNewline(tokens, from) == at
  {
    var found := NextNewline(tokens, from);
    if found < |tokens| { assert !NotNewline(tokens, found); }
    assert !NotNewline(tokens, at);
  }

  lemma FirstCommaIs(tokens: seq<Token>, from: nat, end: nat, comma: Option<nat>)
    requires from <= end <= |tokens|
    requires comma.None? ==> NoComma(tokens, from, end)
    requires comma.Some? ==>
               from <= comma.value < end && tokens[comma.value].Comma? && NoComma(tokens, from, comma.value)
    ensures FirstComma(tokens, from, end) == comma
  {
    var found := FirstComma(tokens, from, end);
    if found.Some? { assert !NotComma(tokens, found.value); }
    if comma.Some? { assert !NotComma(tokens, comma.value); }
  }

  lemma LineIsExact(tokens: seq<Token>, m: nat, next: nat, last: bool, line: MemberLine)
    requires m < next <= |tokens|
    ensures LineBetween(tokens, m, next, last, line.leadStart) == Some(line) <==> IsLine(tokens, m, next, last, line)
  {
    var newline := NextNewline(tokens, m + 1);
    if IsLine(tokens, m, next, last, line) {
      NextNewlineIs(tokens, m + 1, line.newline);
      FirstCommaIs(tokens, m + 1, newline, line.comma);
    }
  }

  lemma {:induction false} LinesAreLines(
      tokens: seq<Token>, children: seq<nat>, lines: seq<MemberLine>, i: nat, leadStart: nat)
    requires AreChildren(tokens, children) && i < |children| && i < |lines|
    requires LinesFrom(tokens, children, i, leadStart) == Some(lines[i..])
    requires i > 0 ==> leadStart == lines[i - 1].newline + 1
    ensures |lines| == |children| && lines[i].leadStart == leadStart
    ensures forall k: nat :: i <= k < |lines| ==> MemberHasLine(tokens, children, lines, k)
    decreases |lines| - i
  {
    Uncons(lines, i);
    LineIsExact(tokens, children[i], NextMember(tokens, children, i), i + 1 == |children|, lines[i]);
    if i + 1 < |children| {
      var line := LineBetween(tokens, children[i], NextMember(tokens, children, i), false, leadStart).value;
      var rest := LinesFrom(tokens, children, i + 1, line.newline + 1).value;
      assert lines[i..] == [line] + rest && lines[i..][1..] == rest;
      LinesAreLines(tokens, children, lines, i + 1, line.newline + 1);
    }
  }

  lemma {:induction false} LinesAreFound(
      tokens: seq<Token>, children: seq<nat>, lines: seq<MemberLine>, i: nat)
    requires IsLayout(tokens, children, lines) && i <= |lines|
    ensures LinesFrom(tokens, children, i, LeadOf(lines, i)) == Some(lines[i..])
    decreases |lines| - i
  {
    if i < |lines| {
      assert MemberHasLine(tokens, children, lines, i);
      LineIsExact(tokens, children[i], NextMember(tokens, children, i), i + 1 == |children|, lines[i]);
      LinesAreFound(tokens, children, lines, i + 1);
      Uncons(lines, i);
    }
  }

  lemma LayoutIsExact(tokens: seq<Token>, children: seq<nat>, lines: seq<MemberLine>)
    requires AreChildren(tokens, children)
    ensures LineLayout(tokens, children) == Some(lines) <==> IsLayout(tokens, children, lines)
  {
    if LineLayout(tokens, children) == Some(lines) {
      assert lines[0..] == lines;
      LinesAreLines(tokens, children, lines, 0, NextNewline(tokens, 0) + 1);
    }
    if IsLayout(tokens, children, lines) {
      NextNewlineIs(tokens, 0, lines[0].leadStart - 1);
      LinesAreFound(tokens, children, lines, 0);
      assert lines[0..] == lines;
    }
  }
}

// The search for the separator comma behind a member, on the characters of the text.
module JsonSeparator {
  import opened Prelude
  import opened JsonTokens
  import opened JsonLayout

  // Two characters side by side.
  predicate At(text: string, first: char, second: char, i: nat) {
    i + 1 < |text| && text[i] == first && text[i + 1] == second
  }

  // The first line break from `from` on.
  function IndexOfBreak(text: string, from: nat): (place: Option<nat>)
    ensures place.Some? ==> from <= place.value < |text| && text[place.value] == '\n'
    ensures forall k: nat :: from <= k < (if place.Some? then place.value else |text|) ==> text[k] != '\n'
    decreases |text| - from
  {
    if from >= |text| then None else if text[from] == '\n' then Some(from) else IndexOfBreak(text, from + 1)
  }

  // The first closing mark of a block comment from `from` on.
  function IndexOfClose(text: string, from: nat): (place: Option<nat>)
    ensures place.Some? ==> from <= place.value < |text| && At(text, '*', '/', place.value)
    ensures forall k: nat :: from <= k < (if place.Some? then place.value else |text|) ==> !At(text, '*', '/', k)
    decreases |text| - from
  {
    if from >= |text| then None
    else if At(text, '*', '/', from) then Some(from)
    else IndexOfClose(text, from + 1)
  }

  // The comma the search stops at, looking from `index` on.
  function Search(text: string, index: nat, end: nat): (comma: Option<nat>)
    requires end <= |text|
    ensures comma.Some? ==> index <= comma.value < end
    decreases |text| - index
  {
    if index >= end then None
    else if At(text, '/', '/', index) then
      var close := IndexOfBreak(text, index);
      if close.None? then None else Search(text, close.value + 1, end)
    else if At(text, '/', '*', index) then
      var close := IndexOfClose(text, index);
      if close.None? then None else Search(text, close.value + 2, end)
    else if text[index] == ',' then Some(index)
    else Search(text, index + 1, end)
  }

  // Just past the separator comma in the stretch, or its start when there is none. Callers start
  // behind a member, so never at the very beginning of the text.
  method AfterComma(text: string, start: nat, end: nat) returns (after: nat)
    requires 0 < start <= end <= |text|
    ensures Search(text, start, end) == if after > start then Some(after - 1) else None
    ensures start <= after <= end
  {
    var index: int := start;
    while index < end
      invariant start <= index && Search(text, start, end) == Search(text, index, end)
      decreases |text| - index
    {
      if At(text, '/', '/', index) {
        var close := IndexOfBreak(text, index);
        index := if close.Some? then close.value else -1;
      } else if At(text, '/', '*', index) {
        var close := IndexOfClose(text, index);
        index := (if close.Some? then close.value else -1) + 1;
      } else if text[index] == ',' {
        return index + 1;
      }
      if index < start { break; }
      index := index + 1;
    }
    return start;
  }

  // ---------------------------------------------------------------- what stands in a stretch

  function TextOf(token: Token): string {
    match token
    case Member(_) => ""
    case Comma => ","
    case Newline(crlf) => if crlf then "\r\n" else "\n"
    case Space(text) => text
    case LineComment(text) => text
    case BlockComment(text) => text
  }

  function Rendered(tokens: seq<Token>): string {
    if tokens == [] then "" else Rendered(tokens[..|tokens| - 1]) + TextOf(tokens[|tokens| - 1])
  }

  ghost predicate Plain(text: string) {
    forall i :: 0 <= i < |text| ==> text[i] != ',' && text[i] != '/'
  }

  // A comment as the scanner delimits it: a block comment ends at the first mark behind its
  // opening one.
  ghost predicate Lexed(token: Token) {
    match token
    case Member(_) => false
    case Space(text) => Plain(text)
    case LineComment(text) => At(text, '/', '/', 0) && forall k: nat :: k < |text| ==> text[k] != '\n'
    case BlockComment(text) =>
      |text| >= 4 && At(text, '/', '*', 0) && At(text, '*', '/', |text| - 2)
      && forall k: nat :: 2 <= k < |text| - 2 ==> !At(text, '*', '/', k)
    case _ => true
  }

  // Blanks, comments and commas; a line comment runs to the end of its line or of the stretch.
  ghost predicate Stretch(tokens: seq<Token>) {
    && (forall i :: 0 <= i < |tokens| ==> Lexed(tokens[i]))
    && (forall i: nat :: i + 1 < |tokens| ==> EndsLine(tokens, i))
  }

  ghost predicate EndsLine(tokens: seq<Token>, i: nat)
    requires i + 1 < |tokens|
  {
    tokens[i].LineComment? ==> tokens[i + 1].Newline?
  }

  // A block comment whose opening mark overlaps something that looks like a closing one.
  predicate Overlaps(token: Token) {
    token.BlockComment? && At(token.text, '*', '/', 1)
  }

  // ---------------------------------------------------------------- the search, token by token

  function Offset(tokens: seq<Token>, i: nat): nat
    requires i <= |tokens|
  {
    |Rendered(tokens[..i])|
  }

  // What stands between `p` and `q`.
  ghost predicate Shows(text: string, p: nat, q: nat, part: string) {
    && p <= q <= |text| && |part| == q - p
    && forall k :: 0 <= k < |part| ==> text[p + k] == part[k]
  }

  lemma ShownInside(front: string, middle: string, back: string, p: nat, q: nat, part: string)
    requires Shows(middle, p, q, part)
    ensures Shows(front + middle + back, |front| + p, |front| + q, part)
  {
    forall k | 0 <= k < |part| ensures (front + middle + back)[|front| + p + k] == part[k] {
      assert middle[p + k] == part[k];
    }
  }

  lemma RenderedStep(tokens: seq<Token>)
    requires tokens != []
    ensures Rendered(tokens) == Rendered(tokens[..|tokens| - 1]) + TextOf(tokens[|tokens| - 1])
  {
  }

  lemma {:induction false} RenderedParts(tokens: seq<Token>, i: nat)
    requires i < |tokens|
    ensures Shows(Rendered(tokens), Offset(tokens, i), Offset(tokens, i + 1), TextOf(tokens[i]))
    decreases |tokens|
  {
    var front, part := tokens[..|tokens| - 1], TextOf(tokens[|tokens| - 1]);
    var before, all := Rendered(front), Rendered(tokens);
    RenderedStep(tokens);
    if i + 1 < |tokens| {
      assert front[..i] == tokens[..i] && front[..i + 1] == tokens[..i + 1];
      RenderedParts(front, i);
      ShownInFront(before, part, Offset(tokens, i), Offset(tokens, i + 1), TextOf(tokens[i]));
    } else {
      assert tokens[..i + 1] == tokens && tokens[..i] == front;
      ShownBehind(before, part);
    }
  }

  lemma ShownInFront(text: string, more: string, p: nat, q: nat, part: string)
    requires Shows(text, p, q, part)
    ensures Shows(text + more, p, q, part)
  {
  }

  lemma ShownBehind(text: string, part: string)
    ensures Shows(text + part, |text|, |text + part|, part)
  {
  }

  lemma {:induction false} SearchPlain(text: string, p: nat, q: nat, end: nat)
    requires p <= q <= end <= |text| && forall k :: p <= k < q ==> text[k] != ',' && text[k] != '/'
    ensures Search(text, p, end) == Search(text, q, end)
    decreases q - p
  {
    if p < q { SearchPlain(text, p + 1, q, end); }
  }

  lemma SearchBlock(text: string, p: nat, q: nat, part: string, end: nat)
    requires Shows(text, p, q, part) && q <= end <= |text|
    requires Lexed(BlockComment(part)) && !Overlaps(BlockComment(part))
    ensures Search(text, p, end) == Search(text, q, end)
  {
    var n := |part|;
    assert text[p] == part[0] && text[p + 1] == part[1] && text[p + (n - 2)] == part[n - 2];
    assert text[p + (n - 1)] == part[n - 1];
    assert At(text, '*', '/', q - 2);
    forall k: nat | p <= k < q - 2 ensures !At(text, '*', '/', k) {
      assert text[p + (k - p)] == part[k - p] && text[p + (k + 1 - p)] == part[k + 1 - p];
      assert !At(part, '*', '/', k - p);
    }
  }

  // A line comment and the line break behind it.
  lemma SearchLine(text: string, p: nat, q: nat, r: nat, part: string, end: nat)
    requires Shows(text, p, q, part) && Lexed(LineComment(part)) && q < r <= end <= |text|
    requires text[r - 1] == '\n' && forall k :: q <= k < r - 1 ==> text[k] != '\n'
    ensures Search(text, p, end) == Search(text, r, end)
  {
    assert text[p] == part[0] && text[p + 1] == part[1];
    forall k: nat | p <= k < r - 1 ensures text[k] != '\n' {
      if k < q { assert text[p + (k - p)] == part[k - p]; }
    }
  }

  lemma SearchLastLine(text: string, p: nat, part: string, end: nat)
    requires Shows(text, p, end, part) && Lexed(LineComment(part))
    ensures Search(text, p, end) == None
  {
    assert text[p] == part[0] && text[p + 1] == part[1];
    forall k: nat | p <= k < end ensures text[k] != '\n' { assert text[p + (k - p)] == part[k - p]; }
  }

  lemma SearchBlank(text: string, p: nat, q: nat, part: string, end: nat)
    requires Shows(text, p, q, part) && Plain(part) && q <= end <= |text|
    ensures Search(text, p, end) == Search(text, q, end)
  {
    forall k | p <= k < q ensures text[k] != ',' && text[k] != '/' { assert text[p + (k - p)] == part[k - p]; }
    SearchPlain(text, p, q, end);
  }

  // A line comment, at the end of the stretch or with the next token from `q` to `r`.
  lemma SearchComment(text: string, p: nat, q: nat, r: nat, part: string, crlf: bool, end: nat)
    requires Shows(text, p, q, part) && Lexed(LineComment(part)) && q <= end <= |text|
    requires q < end ==> r <= end && Shows(text, q, r, TextOf(Newline(crlf)))
    ensures Search(text, p, end) == Search(text, q, end)
  {
    if q == end {
      SearchLastLine(text, p, part, end);
    } else {
      var eol := TextOf(Newline(crlf));
      assert text[q + 0] == eol[0] && text[q + (|eol| - 1)] == eol[|eol| - 1];
      SearchLine(text, p, q, r, part, end);
      SearchPlain(text, q, r, end);
    }
  }

  // One token of the stretch, the next one standing from `q` to `r`.
  lemma SearchToken(text: string, tokens: seq<Token>, i: nat, p: nat, q: nat, r: nat, end: nat)
    requires Stretch(tokens) && i < |tokens| && !Overlaps(tokens[i])
    requires Shows(text, p, q, TextOf(tokens[i])) && q <= end <= |text| && (i + 1 == |tokens| ==> q == end)
    requires i + 1 < |tokens| ==> r <= end && Shows(text, q, r, TextOf(tokens[i + 1]))
    ensures Search(text, p, end) == if tokens[i].Comma? then Some(p) else Search(text, q, end)
  {
    var part := TextOf(tokens[i]);
    assert Lexed(tokens[i]);
    match tokens[i] {
      case Comma => assert text[p + 0] == part[0];
      case BlockComment(_) => SearchBlock(text, p, q, part, end);
      case LineComment(_) =>
        if i + 1 < |tokens| { assert EndsLine(tokens, i); }
        SearchComment(text, p, q, r, part, i + 1 < |tokens| && tokens[i + 1].crlf, end);
      case Space(_) => SearchBlank(text, p, q, part, end);
      case Newline(_) => SearchBlank(text, p, q, part, end);
      case Member(_) =>
    }
  }

  // ---------------------------------------------------------------- exactly the separator

  lemma ShowsToken(front: string, tokens: seq<Token>, back: string, i: nat)
    requires i < |tokens|
    ensures Shows(front + Rendered(tokens) + back, |front| + Offset(tokens, i), |front| + Offset(tokens, i + 1),
                  TextOf(tokens[i]))
    ensures Offset(tokens, i + 1) <= |Rendered(tokens)|
  {
    RenderedParts(tokens, i);
    ShownInside(front, Rendered(tokens), back, Offset(tokens, i), Offset(tokens, i + 1), TextOf(tokens[i]));
  }

  // Token `i` stands in the text from `at[i]` to `at[i + 1]`.
  ghost predicate Laid(text: string, tokens: seq<Token>, at: seq<nat>, i: nat) {
    && i < |tokens| && |at| == |tokens| + 1
    && Shows(text, at[i], at[i + 1], TextOf(tokens[i])) && at[i + 1] <= at[|tokens|] <= |text|
  }

  ghost function Place(at: seq<nat>, comma: Option<nat>): Option<nat>
    requires comma.Some? ==> comma.value < |at|
  {
    if comma.None? then None else Some(at[comma.value])
  }

  lemma SearchStep(text: string, tokens: seq<Token>, at: seq<nat>, i: nat)
    requires Stretch(tokens) && i < |tokens| && !Overlaps(tokens[i]) && |at| == |tokens| + 1
    requires Laid(text, tokens, at, i) && (i + 1 < |tokens| ==> Laid(text, tokens, at, i + 1))
    ensures Search(text, at[i], at[|tokens|])
         == if tokens[i].Comma? then Some(at[i]) else Search(text, at[i + 1], at[|tokens|])
  {
    SearchToken(text, tokens, i, at[i], at[i + 1], if i + 1 < |tokens| then at[i + 2] else 0, at[|tokens|]);
  }

  lemma {:induction false} SearchFrom(text: string, tokens: seq<Token>, at: seq<nat>, i: nat)
    requires Stretch(tokens) && i <= |tokens| && forall k :: 0 <= k < |tokens| ==> !Overlaps(tokens[k])
    requires |at| == |tokens| + 1 && at[|tokens|] <= |text|
    requires forall k: nat :: k < |tokens| ==> Laid(text, tokens, at, k)
    ensures Search(text, at[i], at[|tokens|]) == Place(at, FirstComma(tokens, i, |tokens|))
    decreases |tokens| - i
  {
    if i < |tokens| {
      SearchFrom(text, tokens, at, i + 1);
      SearchStep(text, tokens, at, i);
    }
  }

  // Where each token begins when the stretch begins at `base`, and where the last one ends.
  ghost function Starts(base: nat, tokens: seq<Token>): (at: seq<nat>)
    ensures |at| == |tokens| + 1
    ensures forall i :: 0 <= i <= |tokens| ==> at[i] == base + Offset(tokens, i)
  {
    seq(|tokens| + 1, i requires 0 <= i <= |tokens| => base + Offset(tokens, i))
  }

  lemma OffsetOfAll(tokens: seq<Token>)
    ensures Offset(tokens, 0) == 0 && Offset(tokens, |tokens|) == |Rendered(tokens)|
  {
    assert tokens[..0] == [] && tokens[..|tokens|] == tokens;
  }

  lemma TokenIsLaid(text: string, front: string, tokens: seq<Token>, back: string, i: nat)
    requires i < |tokens| && text == front + Rendered(tokens) + back
    ensures Laid(text, tokens, Starts(|front|, tokens), i)
  {
    ShowsToken(front, tokens, back, i);
    OffsetOfAll(tokens);
  }

  lemma SearchPlaced(text: string, front: string, tokens: seq<Token>, back: string)
    requires Stretch(tokens) && forall k :: 0 <= k < |tokens| ==> !Overlaps(tokens[k])
    requires text == front + Rendered(tokens) + back
    ensures var at := Starts(|front|, tokens);
            at[|tokens|] <= |text|
            && Search(text, at[0], at[|tokens|]) == Place(at, FirstComma(tokens, 0, |tokens|))
  {
    OffsetOfAll(tokens);
    var at := Starts(|front|, tokens);
    forall i: nat | i < |tokens| ensures Laid(text, tokens, at, i) { TokenIsLaid(text, front, tokens, back, i); }
    SearchFrom(text, tokens, at, 0);
  }

  // In any text around the stretch the search stops at its first comma outside comments, and
  // finds none when there is none, provided no block comment overlaps its own opening mark.
  lemma SearchFindsTheSeparator(text: string, front: string, tokens: seq<Token>, back: string)
    requires Stretch(tokens) && forall k :: 0 <= k < |tokens| ==> !Overlaps(tokens[k])
    requires text == front + Rendered(tokens) + back
    ensures var comma := FirstComma(tokens, 0, |tokens|);
            Search(text, |front|, |front| + |Rendered(tokens)|)
            == if comma.None? then None else Some(|front| + Offset(tokens, comma.value))
  {
    SearchPlaced(text, front, tokens, back);
    OffsetOfAll(tokens);
  }

  // ---------------------------------------------------------------- a comment that overlaps its opening mark

  lemma {:induction false} SearchStopsBy(text: string, p: nat, m: nat, end: nat)
    requires p <= m < end <= |text| && text[m] == ',' && forall k :: p <= k <= m ==> text[k] != '/'
    ensures Search(text, p, end).Some? && Search(text, p, end).value <= m
    decreases m - p
  {
    if p < m && text[p] != ',' { SearchStopsBy(text, p + 1, m, end); }
  }

  // Such a comment with no further slash in it, with another comment right behind it.
  lemma MisreadComment(text: string, p: nat, c: string, end: nat)
    requires Shows(text, p, p + |c|, c) && p + |c| + 1 < end <= |text| && text[p + |c|] == '/'
    requires Lexed(BlockComment(c)) && Overlaps(BlockComment(c)) && forall k :: 3 <= k < |c| - 1 ==> c[k] != '/'
    requires forall k :: p + |c| <= k < end ==> text[k] != '\n'
    ensures Search(text, p, end) == None || Search(text, p, end).value < p + |c|
  {
    var n := |c|;
    assert text[p] == c[0] && text[p + 1] == c[1] && text[p + 2] == c[2] && text[p + (n - 1)] == c[n - 1];
    assert At(text, '*', '/', p + 1) && !At(text, '*', '/', p);
    assert Search(text, p, end) == Search(text, p + 3, end);
    forall k | p + 3 <= k < p + n - 1 ensures text[k] != '/' { assert text[p + (k - p)] == c[k - p]; }
    if m :| p + 3 <= m < p + n - 1 && text[m] == ',' {
      SearchStopsBy(text, p + 3, m, end);
    } else {
      SearchPlain(text, p + 3, p + n - 1, end);
      assert At(text, '/', '/', p + n - 1);
      var close := IndexOfBreak(text, p + n - 1);
      assert close.Some? ==> close.value >= end;
    }
  }

  // A comment, an empty one behind it, and the separator.
  function Crowded(c: string): seq<Token> {
    [BlockComment(c), BlockComment(['/', '*', '*', '/']), Comma]
  }

  lemma CrowdedText(c: string)
    ensures Rendered(Crowded(c)) == c + ['/', '*', '*', '/', ','] && Offset(Crowded(c), 2) == |c| + 4
  {
    var tokens := Crowded(c);
    assert tokens[..2][..1] == [BlockComment(c)] && tokens[..2] == [BlockComment(c), tokens[1]];
    assert Rendered([BlockComment(c)]) == [] + c;
    assert Rendered(tokens[..2]) == c + ['/', '*', '*', '/'];
  }

  lemma CrowdedIsStretch(c: string)
    requires Lexed(BlockComment(c))
    ensures Stretch(Crowded(c)) && FirstComma(Crowded(c), 0, 3) == Some(2)
  {
    assert FirstComma(Crowded(c), 1, 3) == FirstComma(Crowded(c), 2, 3) == Some(2);
  }

  lemma TailInText(front: string, c: string, tail: string, back: string)
    requires |tail| == 5 && tail[0] == '/' && forall k :: 0 <= k < 5 ==> tail[k] != '\n'
    ensures var text, q := front + (c + tail) + back, |front| + |c|;
            && Shows(text, |front|, q, c) && text[q] == '/' && (forall k :: q <= k < q + 5 ==> text[k] != '\n')
  {
    var text, q := front + (c + tail) + back, |front| + |c|;
    assert text == front + c + (tail + back) == (front + c) + tail + back;
    ShownInside(front, c, tail + back, 0, |c|, c);
    forall k | q <= k < q + 5 ensures text[k] == tail[k - q] {}
  }

  // Behind it the search misses a separator, or stops at a comma inside the comment.
  lemma OverlappingCommentMisleads(front: string, c: string, back: string)
    requires Lexed(BlockComment(c)) && Overlaps(BlockComment(c)) && forall k :: 3 <= k < |c| - 1 ==> c[k] != '/'
    ensures Stretch(Crowded(c)) && FirstComma(Crowded(c), 0, 3) == Some(2)
    ensures Search(front + Rendered(Crowded(c)) + back, |front|, |front| + |Rendered(Crowded(c))|)
            != Some(|front| + Offset(Crowded(c), 2))
  {
    CrowdedIsStretch(c);
    CrowdedText(c);
    TailInText(front, c, ['/', '*', '*', '/', ','], back);
    MisreadComment(front + Rendered(Crowded(c)) + back, |front|, c, |front| + |c| + 5);
  }
}

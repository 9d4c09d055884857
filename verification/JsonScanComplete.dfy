// The scanner passes every document, and a reported offset does not depend on the text behind it.
module JsonScanComplete {
  import opened JsonGrammar
  import opened JsonScan
  import opened JsonScanSound

  // ---------------------------------------------------------------- reading a rendered tree

  lemma Parts(raw: Text, i: nat, front: Text, back: Text)
    requires StartsWith(raw, i, front + back)
    ensures StartsWith(raw, i, front) && StartsWith(raw, i + |front|, back)
  {
    var all := front + back;
    forall k: nat | k < |front| ensures SameUnit(raw, i, front, k) { assert SameUnit(raw, i, all, k); }
    var start := i + |front|;
    forall k: nat | k < |back| ensures SameUnit(raw, start, back, k) { assert SameUnit(raw, i, all, |front| + k); }
  }

  lemma Head(raw: Text, i: nat, c: int, back: Text)
    requires StartsWith(raw, i, [c] + back)
    ensures i < |raw| && raw[i] == c && StartsWith(raw, i + 1, back)
  {
    Parts(raw, i, [c], back);
    assert SameUnit(raw, i, [c], 0);
  }

  lemma CharAt(raw: Text, i: nat, text: Text, k: nat)
    requires StartsWith(raw, i, text) && k < |text|
    ensures raw[i + k] == text[k]
  {
    assert SameUnit(raw, i, text, k);
  }

  lemma {:induction false} SkipsBlank(raw: Text, i: nat, ws: Text)
    requires Blank(ws) && StartsWith(raw, i, ws)
    ensures SkipWhitespace(raw, i) == SkipWhitespace(raw, i + |ws|)
    decreases |ws|
  {
    if ws != [] {
      assert ws == [ws[0]] + ws[1..];
      Head(raw, i, ws[0], ws[1..]);
      SkipsBlank(raw, i + 1, ws[1..]);
    }
  }

  lemma {:induction false} ReadsChars(raw: Text, i: nat, chars: seq<Char>)
    requires ValidChars(chars) && StartsWith(raw, i, CharsText(chars) + [QUOTE])
    ensures ScanChars(raw, i) == Ok(i + |CharsText(chars)| + 1)
    decreases |chars|
  {
    if chars == [] {
      assert CharsText(chars) + [QUOTE] == [QUOTE] + [];
      Head(raw, i, QUOTE, []);
    } else {
      var c, rest := chars[0], CharsText(chars[1..]) + [QUOTE];
      assert ValidChar(c);
      assert CharsText(chars) + [QUOTE] == CharText(c) + rest;
      Parts(raw, i, CharText(c), rest);
      CharAt(raw, i, CharText(c), 0);
      assert CharText(c)[0] == if c.Plain? then c.c else BACKSLASH;
      ReadsChars(raw, i + |CharText(c)|, chars[1..]);
    }
  }

  // What ends a number.
  predicate Ends(raw: Text, i: nat) {
    !IsDigit(At(raw, i)) && At(raw, i) != POINT && !IsExponent(At(raw, i))
  }

  lemma {:induction false} ReadsDigits(raw: Text, i: nat, digits: Text)
    requires StartsWith(raw, i, digits) && (forall k :: 0 <= k < |digits| ==> IsDigit(digits[k]))
    requires !IsDigit(At(raw, i + |digits|))
    ensures SkipDigits(raw, i) == i + |digits|
    decreases |digits|
  {
    if digits != [] {
      assert digits == [digits[0]] + digits[1..];
      Head(raw, i, digits[0], digits[1..]);
      ReadsDigits(raw, i + 1, digits[1..]);
    }
  }

  lemma ReadsExponent(raw: Text, i: nat, exponent: Text)
    requires ValidExponent(exponent) && StartsWith(raw, i, exponent) && Ends(raw, i + |exponent|)
    ensures ScanExponent(raw, i) == Ok(i + |exponent|)
  {
    if exponent != [] {
      var n := if |exponent| > 1 && (exponent[1] == PLUS || exponent[1] == MINUS) then 2 else 1;
      var digits := exponent[n..];
      assert exponent == exponent[..n] + digits;
      Parts(raw, i, exponent[..n], digits);
      CharAt(raw, i, exponent, 0);
      CharAt(raw, i, exponent, 1);
      CharAt(raw, i, exponent, n);
      assert Digits(digits);
      ReadsDigits(raw, i + n, digits);
    }
  }

  lemma ReadsFraction(raw: Text, i: nat, fraction: Text, exponent: Text)
    requires ValidFraction(fraction) && ValidExponent(exponent)
    requires StartsWith(raw, i, fraction + exponent) && Ends(raw, i + |fraction| + |exponent|)
    ensures ScanFraction(raw, i) == Ok(i + |fraction| + |exponent|)
  {
    Parts(raw, i, fraction, exponent);
    var end := i + |fraction|;
    ReadsExponent(raw, end, exponent);
    if exponent != [] { CharAt(raw, end, exponent, 0); }
    if fraction != [] {
      var digits := fraction[1..];
      assert fraction == [fraction[0]] + digits;
      Head(raw, i, fraction[0], digits);
      CharAt(raw, i + 1, digits, 0);
      ReadsDigits(raw, i + 1, digits);
    }
  }

  lemma NumberParts(raw: Text, i: nat, t: Tree, start: nat, end: nat)
    requires t.Number? && Valid(t) && StartsWith(raw, i, TreeText(t))
    requires start == i + (if t.minus then 1 else 0) && end == start + |t.whole|
    ensures StartsWith(raw, start, t.whole) && StartsWith(raw, end, t.fraction + t.exponent)
    ensures |TreeText(t)| == end - i + |t.fraction| + |t.exponent|
    ensures t.minus ==> i < |raw| && raw[i] == MINUS
    ensures start < |raw| && raw[start] == t.whole[0]
  {
    var sign := if t.minus then [MINUS] else [];
    var tail := t.fraction + t.exponent;
    assert TreeText(t) == sign + (t.whole + tail);
    Parts(raw, i, sign, t.whole + tail);
    Parts(raw, start, t.whole, tail);
    CharAt(raw, start, t.whole, 0);
    if t.minus { CharAt(raw, i, sign, 0); }
  }

  lemma WholeEnds(raw: Text, end: nat, fraction: Text, exponent: Text)
    requires ValidFraction(fraction) && ValidExponent(exponent) && StartsWith(raw, end, fraction + exponent)
    requires Ends(raw, end + |fraction| + |exponent|)
    ensures !IsDigit(At(raw, end))
  {
    if fraction + exponent != [] {
      TailStartsNoDigit(fraction, exponent);
      CharAt(raw, end, fraction + exponent, 0);
    }
  }

  lemma ReadsNumber(raw: Text, i: nat, t: Tree)
    requires t.Number? && Valid(t) && StartsWith(raw, i, TreeText(t)) && Ends(raw, i + |TreeText(t)|)
    ensures i < |raw| && (raw[i] == MINUS || IsDigit(raw[i])) && ScanNumber(raw, i) == Ok(i + |TreeText(t)|)
  {
    var start := i + (if t.minus then 1 else 0);
    var end := start + |t.whole|;
    NumberParts(raw, i, t, start, end);
    WholeEnds(raw, end, t.fraction, t.exponent);
    WholeRead(raw, start, t.whole, end);
    ReadsFraction(raw, end, t.fraction, t.exponent);
  }

  lemma WholeRead(raw: Text, start: nat, whole: Text, end: nat)
    requires ValidWhole(whole) && StartsWith(raw, start, whole) && end == start + |whole| && !IsDigit(At(raw, end))
    requires start < |raw| && raw[start] == whole[0]
    ensures end == if At(raw, start) == ZERO then start + 1 else SkipDigits(raw, start)
  {
    if whole[0] != ZERO { ReadsDigits(raw, start, whole); }
  }

  lemma TailStartsNoDigit(fraction: Text, exponent: Text)
    requires ValidFraction(fraction) && ValidExponent(exponent) && fraction + exponent != []
    ensures !IsDigit((fraction + exponent)[0])
  {
    if fraction == [] { assert fraction + exponent == exponent; }
  }

  // No value starts with whitespace or a closing or separating mark.
  predicate Starts(c: int) {
    !IsWhitespace(c) && c != COMMA && c != CLOSE_BRACKET && c != CLOSE_BRACE
  }

  lemma TreeStarts(t: Tree)
    requires Valid(t)
    ensures TreeText(t) != [] && Starts(TreeText(t)[0])
  {
    match t
    case Word(_) =>
    case Number(minus, whole, fraction, exponent) =>
      assert TreeText(t)[0] == if minus then MINUS else whole[0];
    case Str(chars) => assert TreeText(t)[0] == QUOTE;
    case Array(_, _) => assert TreeText(t)[0] == OPEN_BRACKET;
    case Object(_, _) => assert TreeText(t)[0] == OPEN_BRACE;
  }

  lemma {:induction false} ReadsTree(raw: Text, i: nat, t: Tree)
    requires Valid(t) && StartsWith(raw, i, TreeText(t)) && Ends(raw, i + |TreeText(t)|)
    ensures i < |raw| && Starts(raw[i]) && ScanToken(raw, i) == Ok(i + |TreeText(t)|)
    decreases |raw| - i, 2
  {
    TreeStarts(t);
    CharAt(raw, i, TreeText(t), 0);
    match t
    case Word(text) => ReadsWord(raw, i, text);
    case Number(_, _, _, _) => ReadsNumber(raw, i, t);
    case Str(chars) =>
      assert TreeText(t) == [QUOTE] + (CharsText(chars) + [QUOTE]);
      Head(raw, i, QUOTE, CharsText(chars) + [QUOTE]);
      ReadsChars(raw, i + 1, chars);
    case Array(_, _) => ReadsArray(raw, i, t);
    case Object(_, _) => ReadsObject(raw, i, t);
  }

  lemma {:induction false} ReadsArray(raw: Text, i: nat, t: Tree)
    requires t.Array? && Valid(t) && StartsWith(raw, i, TreeText(t))
    ensures i < |raw| && raw[i] == OPEN_BRACKET && ScanArray(raw, i) == Ok(i + |TreeText(t)|)
    decreases |raw| - i, 1
  {
    if t.items == [] {
      BodyFollows(raw, i, OPEN_BRACKET, t.inner, CLOSE_BRACKET);
      ReadsEmpty(raw, i + 1, t.inner, CLOSE_BRACKET);
    } else {
      BodyFollows(raw, i, OPEN_BRACKET, ElementsText(t.items), CLOSE_BRACKET);
      ReadsElements(raw, i + 1, t.items);
      ElementsSkip(raw, i + 1);
    }
  }

  lemma {:induction false} ReadsObject(raw: Text, i: nat, t: Tree)
    requires t.Object? && Valid(t) && StartsWith(raw, i, TreeText(t))
    ensures i < |raw| && raw[i] == OPEN_BRACE && ScanObject(raw, i) == Ok(i + |TreeText(t)|)
    decreases |raw| - i, 1
  {
    if t.members == [] {
      BodyFollows(raw, i, OPEN_BRACE, t.inner, CLOSE_BRACE);
      ReadsEmpty(raw, i + 1, t.inner, CLOSE_BRACE);
    } else {
      BodyFollows(raw, i, OPEN_BRACE, MembersText(t.members), CLOSE_BRACE);
      ReadsMembers(raw, i + 1, t.members);
      MembersSkip(raw, i + 1);
    }
  }

  lemma ReadsWord(raw: Text, i: nat, text: Text)
    requires text == TRUE || text == FALSE || text == NULL
    requires StartsWith(raw, i, text)
    ensures i < |raw| && ScanToken(raw, i) == Ok(i + |text|)
  {
    CharAt(raw, i, text, 0);
    if StartsWith(raw, i, TRUE) { CharAt(raw, i, TRUE, 0); }
    if StartsWith(raw, i, FALSE) { CharAt(raw, i, FALSE, 0); }
  }

  lemma BodyFollows(raw: Text, i: nat, open: int, body: Text, close: int)
    requires StartsWith(raw, i, [open] + body + [close])
    ensures i < |raw| && raw[i] == open && StartsWith(raw, i + 1, body + [close])
  {
    assert [open] + body + [close] == [open] + (body + [close]);
    Head(raw, i, open, body + [close]);
  }

  lemma ReadsEmpty(raw: Text, i: nat, ws: Text, close: int)
    requires Blank(ws) && !IsWhitespace(close) && StartsWith(raw, i, ws + [close])
    ensures SkipWhitespace(raw, i) == i + |ws| < |raw| && raw[i + |ws|] == close
  {
    Parts(raw, i, ws, [close]);
    CharAt(raw, i + |ws|, [close], 0);
    SkipsBlank(raw, i, ws);
  }

  // Where the parts of an element lie.
  lemma ElementParts(raw: Text, i: nat, e: Element, mark: int, start: nat, end: nat)
    requires ValidElement(e) && StartsWith(raw, i, ElementText(e) + [mark])
    requires start == i + |e.before| && end == start + |TreeText(e.value)|
    ensures StartsWith(raw, i, e.before) && StartsWith(raw, start, TreeText(e.value))
            && StartsWith(raw, end, e.after + [mark])
    ensures i + |ElementText(e)| == end + |e.after|
  {
    var text := TreeText(e.value);
    assert ElementText(e) + [mark] == e.before + (text + (e.after + [mark]));
    Parts(raw, i, e.before, text + (e.after + [mark]));
    Parts(raw, start, text, e.after + [mark]);
  }

  // `close` and commas end numbers too.
  lemma MarkEnds(raw: Text, end: nat, ws: Text, mark: int)
    requires Blank(ws) && StartsWith(raw, end, ws + [mark])
    requires mark == COMMA || mark == CLOSE_BRACKET || mark == CLOSE_BRACE
    ensures Ends(raw, end)
  {
    CharAt(raw, end, ws + [mark], 0);
    assert (ws + [mark])[0] == if ws == [] then mark else ws[0];
  }

  lemma {:induction false} ReadsElement(raw: Text, i: nat, e: Element, mark: int)
    requires ValidElement(e) && StartsWith(raw, i, ElementText(e) + [mark])
    requires mark == COMMA || mark == CLOSE_BRACKET || mark == CLOSE_BRACE
    ensures i <= |raw| && ScanValue(raw, i).Ok? && SkipWhitespace(raw, i) < |raw| && Starts(raw[SkipWhitespace(raw, i)])
    ensures SkipWhitespace(raw, ScanValue(raw, i).next) == i + |ElementText(e)| < |raw|
    ensures raw[i + |ElementText(e)|] == mark
    decreases |raw| - i, 3
  {
    var start := i + |e.before|;
    var end := start + |TreeText(e.value)|;
    ElementParts(raw, i, e, mark, start, end);
    MarkEnds(raw, end, e.after, mark);
    ReadsEmpty(raw, end, e.after, mark);
    ReadsTree(raw, start, e.value);
    SkipsBlank(raw, i, e.before);
  }

  // The first element, its mark, and the rest.
  lemma FirstPart(raw: Text, i: nat, first: Text, rest: Text, close: int)
    requires StartsWith(raw, i, first + [COMMA] + rest + [close])
    ensures StartsWith(raw, i, first + [COMMA]) && StartsWith(raw, i + |first| + 1, rest + [close])
  {
    assert first + [COMMA] + rest + [close] == first + [COMMA] + (rest + [close]);
    Parts(raw, i, first + [COMMA], rest + [close]);
  }

  lemma ElementsSkip(raw: Text, start: nat)
    requires start <= |raw|
    ensures ScanElements(raw, SkipWhitespace(raw, start)) == ScanElements(raw, start)
  {
    SkipTwice(raw, start);
  }

  // An element, its comma and the elements behind it.
  lemma ElementsContinue(raw: Text, comma: nat)
    requires comma < |raw| && raw[comma] == COMMA
    requires SkipWhitespace(raw, comma + 1) < |raw| && Starts(raw[SkipWhitespace(raw, comma + 1)])
    ensures BehindElement(raw, comma) == ScanElements(raw, comma + 1)
  {
    ElementsSkip(raw, comma + 1);
  }

  lemma {:induction false} ReadsOneElement(raw: Text, i: nat, e: Element, mark: int)
    requires ValidElement(e) && StartsWith(raw, i, ElementText(e) + [mark]) && (mark == COMMA || mark == CLOSE_BRACKET)
    ensures i + |ElementText(e)| < |raw| && raw[i + |ElementText(e)|] == mark
    ensures ScanElements(raw, i) == BehindElement(raw, i + |ElementText(e)|)
    ensures SkipWhitespace(raw, i) < |raw| && Starts(raw[SkipWhitespace(raw, i)])
    decreases |raw| - i, 4
  {
    ReadsElement(raw, i, e, mark);
  }

  lemma ElementsParts(raw: Text, i: nat, e: Element, rest: seq<Element>)
    requires rest != [] && StartsWith(raw, i, ElementsText([e] + rest) + [CLOSE_BRACKET])
    ensures StartsWith(raw, i, ElementText(e) + [COMMA])
    ensures StartsWith(raw, i + |ElementText(e)| + 1, ElementsText(rest) + [CLOSE_BRACKET])
    ensures |ElementsText([e] + rest)| == |ElementText(e)| + 1 + |ElementsText(rest)|
  {
    ConsElements(e, rest);
    FirstPart(raw, i, ElementText(e), ElementsText(rest), CLOSE_BRACKET);
  }

  lemma ElementsUncons(items: seq<Element>)
    requires items != [] && ValidElements(items)
    ensures ValidElement(items[0]) && ValidElements(items[1..]) && items == [items[0]] + items[1..]
    ensures |items| == 1 ==> items == [items[0]]
  {}

  lemma {:induction false} ReadsElements(raw: Text, i: nat, items: seq<Element>)
    requires items != [] && ValidElements(items) && StartsWith(raw, i, ElementsText(items) + [CLOSE_BRACKET])
    ensures i <= |raw| && ScanElements(raw, i) == Ok(i + |ElementsText(items)| + 1)
    ensures SkipWhitespace(raw, i) < |raw| && Starts(raw[SkipWhitespace(raw, i)])
    decreases |raw| - i, 6
  {
    ElementsUncons(items);
    var e, rest := items[0], items[1..];
    if |items| == 1 {
      OneElementRead(raw, i, e);
    } else {
      var comma := i + |ElementText(e)|;
      ElementsParts(raw, i, e, rest);
      ReadsOneElement(raw, i, e, COMMA);
      ReadsElements(raw, comma + 1, rest);
      ElementsContinue(raw, comma);
      assert ScanElements(raw, i) == BehindElement(raw, comma) == ScanElements(raw, comma + 1);
    }
  }

  lemma {:induction false} OneElementRead(raw: Text, i: nat, e: Element)
    requires ValidElement(e) && StartsWith(raw, i, ElementsText([e]) + [CLOSE_BRACKET])
    ensures i <= |raw| && ScanElements(raw, i) == Ok(i + |ElementsText([e])| + 1)
    ensures SkipWhitespace(raw, i) < |raw| && Starts(raw[SkipWhitespace(raw, i)])
    decreases |raw| - i, 5
  {
    OneElement(e);
    ReadsOneElement(raw, i, e, CLOSE_BRACKET);
  }

  function KeyText(m: Member): Text {
    m.before + StringText(m.key) + m.beforeColon + [COLON]
  }

  lemma KeyParts(raw: Text, i: nat, m: Member, start: nat, end: nat)
    requires StartsWith(raw, i, KeyText(m)) && start == i + |m.before| && end == start + |StringText(m.key)|
    ensures StartsWith(raw, i, m.before) && start < |raw| && raw[start] == QUOTE
    ensures StartsWith(raw, start + 1, CharsText(m.key) + [QUOTE]) && StartsWith(raw, end, m.beforeColon + [COLON])
    ensures i + |KeyText(m)| == end + |m.beforeColon| + 1
  {
    var quoted, tail := CharsText(m.key) + [QUOTE], m.beforeColon + [COLON];
    assert KeyText(m) == m.before + ([QUOTE] + (quoted + tail));
    Parts(raw, i, m.before, [QUOTE] + (quoted + tail));
    Head(raw, start, QUOTE, quoted + tail);
    Parts(raw, start + 1, quoted, tail);
  }

  lemma KeyFound(raw: Text, i: nat, start: nat, end: nat, colon: nat)
    requires i <= |raw| && SkipWhitespace(raw, i) == start < |raw| && raw[start] == QUOTE
    requires ScanChars(raw, start + 1) == Ok(end) && end <= |raw| && SkipWhitespace(raw, end) == colon < |raw|
             && raw[colon] == COLON
    ensures ScanKey(raw, i) == Ok(colon + 1)
  {}

  lemma ReadsKey(raw: Text, i: nat, m: Member)
    requires ValidMember(m) && StartsWith(raw, i, KeyText(m))
    ensures i <= |raw| && ScanKey(raw, i) == Ok(i + |KeyText(m)|)
    ensures SkipWhitespace(raw, i) < |raw| && raw[SkipWhitespace(raw, i)] == QUOTE
  {
    var start := i + |m.before|;
    var end := start + |StringText(m.key)|;
    KeyParts(raw, i, m, start, end);
    SkipsBlank(raw, i, m.before);
    ReadsChars(raw, start + 1, m.key);
    ReadsEmpty(raw, end, m.beforeColon, COLON);
    KeyFound(raw, i, start, end, end + |m.beforeColon|);
  }

  lemma {:induction false} ReadsMember(raw: Text, i: nat, m: Member, mark: int)
    requires ValidMember(m) && StartsWith(raw, i, MemberText(m) + [mark])
    requires mark == COMMA || mark == CLOSE_BRACE
    ensures i <= |raw| && SkipWhitespace(raw, i) < |raw| && raw[SkipWhitespace(raw, i)] == QUOTE
    ensures i + |MemberText(m)| < |raw| && raw[i + |MemberText(m)|] == mark
    ensures ScanMembers(raw, i) == BehindMember(raw, i + |MemberText(m)|)
    decreases |raw| - i, 4
  {
    var head := KeyText(m);
    assert MemberText(m) + [mark] == head + (ElementText(m.element) + [mark]);
    Parts(raw, i, head, ElementText(m.element) + [mark]);
    ReadsKey(raw, i, m);
    ReadsElement(raw, i + |head|, m.element, mark);
  }

  lemma MembersSkip(raw: Text, start: nat)
    requires start <= |raw|
    ensures ScanMembers(raw, SkipWhitespace(raw, start)) == ScanMembers(raw, start)
  {
    SkipTwice(raw, start);
    assert ScanKey(raw, SkipWhitespace(raw, start)) == ScanKey(raw, start);
  }

  lemma MembersContinue(raw: Text, comma: nat)
    requires comma < |raw| && raw[comma] == COMMA
    requires SkipWhitespace(raw, comma + 1) < |raw| && raw[SkipWhitespace(raw, comma + 1)] == QUOTE
    ensures BehindMember(raw, comma) == ScanMembers(raw, comma + 1)
  {
    MembersSkip(raw, comma + 1);
  }

  lemma MembersParts(raw: Text, i: nat, m: Member, rest: seq<Member>)
    requires rest != [] && StartsWith(raw, i, MembersText([m] + rest) + [CLOSE_BRACE])
    ensures StartsWith(raw, i, MemberText(m) + [COMMA])
    ensures StartsWith(raw, i + |MemberText(m)| + 1, MembersText(rest) + [CLOSE_BRACE])
    ensures |MembersText([m] + rest)| == |MemberText(m)| + 1 + |MembersText(rest)|
  {
    ConsMembers(m, rest);
    FirstPart(raw, i, MemberText(m), MembersText(rest), CLOSE_BRACE);
  }

  lemma MembersUncons(members: seq<Member>)
    requires members != [] && ValidMembers(members)
    ensures ValidMember(members[0]) && ValidMembers(members[1..]) && members == [members[0]] + members[1..]
    ensures |members| == 1 ==> members == [members[0]]
  {}

  lemma {:induction false} ReadsMembers(raw: Text, i: nat, members: seq<Member>)
    requires members != [] && ValidMembers(members) && StartsWith(raw, i, MembersText(members) + [CLOSE_BRACE])
    ensures i <= |raw| && ScanMembers(raw, i) == Ok(i + |MembersText(members)| + 1)
    ensures SkipWhitespace(raw, i) < |raw| && raw[SkipWhitespace(raw, i)] == QUOTE
    decreases |raw| - i, 6
  {
    MembersUncons(members);
    var m, rest := members[0], members[1..];
    if |members| == 1 {
      OneMemberRead(raw, i, m);
    } else {
      var comma := i + |MemberText(m)|;
      MembersParts(raw, i, m, rest);
      ReadsMember(raw, i, m, COMMA);
      ReadsMembers(raw, comma + 1, rest);
      MembersContinue(raw, comma);
      assert ScanMembers(raw, i) == BehindMember(raw, comma) == ScanMembers(raw, comma + 1);
    }
  }

  lemma {:induction false} OneMemberRead(raw: Text, i: nat, m: Member)
    requires ValidMember(m) && StartsWith(raw, i, MembersText([m]) + [CLOSE_BRACE])
    ensures i <= |raw| && ScanMembers(raw, i) == Ok(i + |MembersText([m])| + 1)
    ensures SkipWhitespace(raw, i) < |raw| && raw[SkipWhitespace(raw, i)] == QUOTE
    decreases |raw| - i, 5
  {
    OneMember(m);
    ReadsMember(raw, i, m, CLOSE_BRACE);
  }

  lemma DocumentParts(raw: Text, e: Element, start: nat, end: nat)
    requires ValidElement(e) && raw == ElementText(e) && start == |e.before| && end == start + |TreeText(e.value)|
    ensures StartsWith(raw, 0, e.before) && StartsWith(raw, start, TreeText(e.value)) && StartsWith(raw, end, e.after)
    ensures |raw| == end + |e.after| && Ends(raw, end)
  {
    var text := TreeText(e.value);
    assert raw == e.before + (text + e.after);
    assert StartsWith(raw, 0, raw) by {
      forall k: nat | k < |raw| ensures SameUnit(raw, 0, raw, k) {}
    }
    Parts(raw, 0, e.before, text + e.after);
    Parts(raw, start, text, e.after);
    if e.after != [] { CharAt(raw, end, e.after, 0); }
  }

  lemma DocumentIsPassed(raw: Text)
    requires IsDocument(raw)
    ensures ScanDocument(raw).Ok?
  {
    var e: Element :| ValidElement(e) && raw == ElementText(e);
    var start := |e.before|;
    var end := start + |TreeText(e.value)|;
    DocumentParts(raw, e, start, end);
    ReadsTree(raw, start, e.value);
    SkipsBlank(raw, 0, e.before);
    SkipsBlank(raw, end, e.after);
  }

  // The scanner passes exactly the documents of the grammar.
  lemma PassesExactlyTheDocuments(raw: Text)
    ensures ScanDocument(raw).Ok? <==> IsDocument(raw)
  {
    if ScanDocument(raw).Ok? { PassedIsDocument(raw); }
    if IsDocument(raw) { DocumentIsPassed(raw); }
  }
}

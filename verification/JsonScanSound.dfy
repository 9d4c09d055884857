// Whatever the scanner passes is grammatical, and whatever it stops in can be completed.
module JsonScanSound {
  import opened JsonGrammar
  import opened JsonScan

  // How much of the text the scan has accounted for.
  function Reach(raw: Text, r: ScanResult): (n: nat)
    requires r.Ok? ==> r.next <= |raw|
    ensures n <= |raw|
  {
    if r.Ok? then r.next else if r.offset < |raw| then r.offset else |raw|
  }

  // The text from `start` is `text` when the scan passed, and begins it otherwise.
  ghost predicate Accounts(raw: Text, start: nat, r: ScanResult, text: Text) {
    && (r.Ok? ==> r.next <= |raw|)
    && start <= Reach(raw, r)
    && raw[start..Reach(raw, r)] <= text
    && (r.Ok? ==> raw[start..r.next] == text)
  }

  lemma Join(raw: Text, a: nat, b: nat, r: ScanResult, front: Text, back: Text)
    requires a <= b <= |raw| && raw[a..b] == front && Accounts(raw, b, r, back)
    ensures Accounts(raw, a, r, front + back)
  {
    assert raw[a..Reach(raw, r)] == raw[a..b] + raw[b..Reach(raw, r)];
  }

  lemma Longer(raw: Text, a: nat, r: ScanResult, text: Text, more: Text)
    requires r.Fail? && Accounts(raw, a, r, text)
    ensures Accounts(raw, a, r, text + more)
  {}

  lemma Touch(raw: Text, a: nat, b: nat)
    requires a <= b < |raw|
    ensures raw[a..b + 1] == raw[a..b] + [raw[b]]
  {}

  lemma {:induction false} SkippedIsBlank(raw: Text, i: nat)
    requires i <= |raw|
    ensures Blank(raw[i..SkipWhitespace(raw, i)])
    decreases |raw| - i
  {
    if i < |raw| && IsWhitespace(raw[i]) {
      SkippedIsBlank(raw, i + 1);
      var next := SkipWhitespace(raw, i + 1);
      assert raw[i..next] == [raw[i]] + raw[i + 1..next];
    }
  }

  // ---------------------------------------------------------------- strings and numbers

  lemma {:induction false} CharsScanned(raw: Text, i: nat) returns (chars: seq<Char>)
    requires i <= |raw|
    ensures ValidChars(chars) && Accounts(raw, i, ScanChars(raw, i), CharsText(chars) + [QUOTE])
    decreases |raw| - i
  {
    var r := ScanChars(raw, i);
    if i == |raw| {
      chars := [];
    } else if raw[i] == QUOTE {
      chars := [];
      Touch(raw, i, i);
      assert CharsText(chars) + [QUOTE] == [QUOTE];
    } else if raw[i] == BACKSLASH && i + 1 == |raw| {
      chars := [Escaped(QUOTE)];
      assert raw[i..|raw|] == [BACKSLASH];
      assert CharsText(chars) == [BACKSLASH, QUOTE] + CharsText([]);
    } else {
      var n := if raw[i] == BACKSLASH then 2 else 1;
      var rest := CharsScanned(raw, i + n);
      var c := if n == 2 then Escaped(raw[i + 1]) else Plain(raw[i]);
      chars := [c] + rest;
      assert raw[i..i + n] == CharText(c);
      Join(raw, i, i + n, r, CharText(c), CharsText(rest) + [QUOTE]);
      assert chars[1..] == rest;
      assert CharsText(chars) + [QUOTE] == CharText(c) + (CharsText(rest) + [QUOTE]);
    }
  }

  lemma StringScanned(raw: Text, i: nat) returns (chars: seq<Char>)
    requires i < |raw| && raw[i] == QUOTE
    ensures ValidChars(chars) && Accounts(raw, i, ScanChars(raw, i + 1), StringText(chars))
  {
    chars := CharsScanned(raw, i + 1);
    Join(raw, i, i + 1, ScanChars(raw, i + 1), [QUOTE], CharsText(chars) + [QUOTE]);
    assert StringText(chars) == [QUOTE] + (CharsText(chars) + [QUOTE]);
  }

  lemma {:induction false} SkippedAreDigits(raw: Text, i: nat)
    requires i <= |raw|
    ensures forall k :: i <= k < SkipDigits(raw, i) ==> IsDigit(raw[k])
    decreases |raw| - i
  {
    if IsDigit(At(raw, i)) { SkippedAreDigits(raw, i + 1); }
  }

  lemma ExponentScanned(raw: Text, i: nat) returns (exponent: Text)
    requires i <= |raw|
    ensures ValidExponent(exponent) && Accounts(raw, i, ScanExponent(raw, i), exponent)
  {
    var r := ScanExponent(raw, i);
    if IsExponent(At(raw, i)) {
      var digits := if At(raw, i + 1) == PLUS || At(raw, i + 1) == MINUS then i + 2 else i + 1;
      var mark := raw[i..digits];
      if r.Ok? {
        exponent := raw[i..r.next];
        SkippedAreDigits(raw, digits);
        assert exponent[digits - i..] == raw[digits..r.next];
      } else {
        exponent := mark + [ZERO];
        assert exponent[digits - i..] == [ZERO];
      }
    } else {
      exponent := [];
    }
  }

  lemma FractionScanned(raw: Text, i: nat) returns (fraction: Text, exponent: Text)
    requires i <= |raw|
    ensures ValidFraction(fraction) && ValidExponent(exponent)
    ensures Accounts(raw, i, ScanFraction(raw, i), fraction + exponent)
  {
    if At(raw, i) == POINT {
      if IsDigit(At(raw, i + 1)) {
        var end := SkipDigits(raw, i + 1);
        SkippedAreDigits(raw, i + 1);
        fraction := raw[i..end];
        assert fraction[1..] == raw[i + 1..end];
        exponent := ExponentScanned(raw, end);
        Join(raw, i, end, ScanFraction(raw, i), fraction, exponent);
      } else {
        fraction, exponent := [POINT, ZERO], [];
        assert raw[i..i + 1] == [POINT];
        assert fraction[1..] == [ZERO] && fraction + exponent == [POINT, ZERO];
      }
    } else {
      fraction := [];
      exponent := ExponentScanned(raw, i);
      assert fraction + exponent == exponent;
    }
  }

  lemma NumberScanned(raw: Text, i: nat) returns (t: Tree)
    requires i < |raw| && (raw[i] == MINUS || IsDigit(raw[i]))
    ensures Valid(t) && Accounts(raw, i, ScanNumber(raw, i), TreeText(t))
  {
    var minus := raw[i] == MINUS;
    var start := if minus then i + 1 else i;
    var sign := raw[i..start];
    assert sign == if minus then [MINUS] else [];
    if !IsDigit(At(raw, start)) {
      t := Number(minus, [ZERO], [], []);
      assert TreeText(t) == sign + [ZERO];
    } else {
      var end := if raw[start] == ZERO then start + 1 else SkipDigits(raw, start);
      var whole := raw[start..end];
      SkippedAreDigits(raw, start);
      var fraction, exponent := FractionScanned(raw, end);
      t := Number(minus, whole, fraction, exponent);
      assert ValidWhole(whole);
      NumberJoined(raw, i, start, end, ScanNumber(raw, i), fraction, exponent);
    }
  }

  lemma WordSlice(raw: Text, i: nat, word: Text)
    requires StartsWith(raw, i, word)
    ensures raw[i..i + |word|] == word
  {
    forall k: nat | k < |word| ensures raw[i..i + |word|][k] == word[k] { assert SameUnit(raw, i, word, k); }
  }

  lemma NumberJoined(raw: Text, i: nat, start: nat, end: nat, r: ScanResult, fraction: Text, exponent: Text)
    requires i <= start <= end <= |raw| && Accounts(raw, end, r, fraction + exponent)
    ensures Accounts(raw, i, r, raw[i..start] + raw[start..end] + fraction + exponent)
  {
    assert raw[i..end] == raw[i..start] + raw[start..end];
    Join(raw, i, end, r, raw[i..end], fraction + exponent);
    assert raw[i..end] + (fraction + exponent) == raw[i..end] + fraction + exponent;
  }

  lemma WordScanned(raw: Text, i: nat) returns (t: Tree)
    requires i < |raw| && raw[i] != OPEN_BRACE && raw[i] != OPEN_BRACKET && raw[i] != QUOTE && raw[i] != MINUS
             && !IsDigit(raw[i])
    ensures Valid(t) && Accounts(raw, i, ScanToken(raw, i), TreeText(t))
  {
    var word := if StartsWith(raw, i, TRUE) then TRUE else if StartsWith(raw, i, FALSE) then FALSE else NULL;
    t := Word(word);
    if StartsWith(raw, i, word) { WordSlice(raw, i, word); }
  }

  // ---------------------------------------------------------------- containers

  function Shifted(ws: Text, items: seq<Element>): seq<Element>
    requires items != []
  {
    [items[0].(before := ws + items[0].before)] + items[1..]
  }

  lemma BlankJoin(a: Text, b: Text)
    requires Blank(a) && Blank(b)
    ensures Blank(a + b)
  {
    forall i | 0 <= i < |a + b| ensures IsWhitespace((a + b)[i]) {
      assert (a + b)[i] == if i < |a| then a[i] else b[i - |a|];
    }
  }

  lemma ShiftedElements(ws: Text, items: seq<Element>)
    requires items != [] && Blank(ws) && ValidElements(items)
    ensures ValidElements(Shifted(ws, items)) && ElementsText(Shifted(ws, items)) == ws + ElementsText(items)
  {
    var first := items[0].(before := ws + items[0].before);
    var shifted := Shifted(ws, items);
    assert shifted[0] == first && shifted[1..] == items[1..];
    assert ValidElement(items[0]);
    BlankJoin(ws, items[0].before);
    assert ElementText(first) == ws + ElementText(items[0]);
    if |items| > 1 {
      assert ElementsText(shifted) == ElementText(first) + [COMMA] + ElementsText(items[1..]);
    }
  }

  function ShiftedMember(ws: Text, m: Member): Member {
    m.(before := ws + m.before)
  }

  lemma ShiftedMemberText(ws: Text, m: Member)
    requires ValidMember(m) && Blank(ws)
    ensures ValidMember(ShiftedMember(ws, m)) && MemberText(ShiftedMember(ws, m)) == ws + MemberText(m)
  {
    BlankJoin(ws, m.before);
    assert ws + m.before + StringText(m.key) + m.beforeColon + [COLON] + ElementText(m.element) == ws + MemberText(m);
  }

  lemma ShiftedMembers(ws: Text, members: seq<Member>)
    requires members != [] && Blank(ws) && ValidMembers(members)
    ensures ValidMembers([ShiftedMember(ws, members[0])] + members[1..])
    ensures MembersText([ShiftedMember(ws, members[0])] + members[1..]) == ws + MembersText(members)
  {
    ShiftedMemberText(ws, members[0]);
    var rest := members[1..];
    assert members == [members[0]] + rest;
    ShiftedMembersText(ws, members[0], rest);
    assert ([ShiftedMember(ws, members[0])] + rest)[1..] == rest;
  }

  lemma ShiftedMembersText(ws: Text, m: Member, rest: seq<Member>)
    requires MemberText(ShiftedMember(ws, m)) == ws + MemberText(m)
    ensures MembersText([ShiftedMember(ws, m)] + rest) == ws + MembersText([m] + rest)
  {
    if rest == [] {
      assert [m] + rest == [m] && [ShiftedMember(ws, m)] + rest == [ShiftedMember(ws, m)];
      OneMember(m);
      OneMember(ShiftedMember(ws, m));
    } else {
      ConsMembers(m, rest);
      ConsMembers(ShiftedMember(ws, m), rest);
      Regroup(ws, MemberText(m), [COMMA], MembersText(rest));
    }
  }

  lemma Regroup(a: Text, b: Text, c: Text, d: Text)
    ensures a + b + c + d == a + (b + c + d)
  {}

  lemma ConsElements(e: Element, rest: seq<Element>)
    requires rest != []
    ensures ElementsText([e] + rest) == ElementText(e) + [COMMA] + ElementsText(rest)
    ensures ValidElements([e] + rest) <==> ValidElement(e) && ValidElements(rest)
  {
    assert ([e] + rest)[1..] == rest;
  }

  lemma ConsMembers(m: Member, rest: seq<Member>)
    requires rest != []
    ensures MembersText([m] + rest) == MemberText(m) + [COMMA] + MembersText(rest)
    ensures ValidMembers([m] + rest) <==> ValidMember(m) && ValidMembers(rest)
  {
    assert ([m] + rest)[1..] == rest;
  }

  lemma OneElement(e: Element)
    ensures ElementsText([e]) == ElementText(e) && (ValidElements([e]) <==> ValidElement(e))
  {
    assert [e][1..] == [];
  }

  lemma OneMember(m: Member)
    ensures MembersText([m]) == MemberText(m) && (ValidMembers([m]) <==> ValidMember(m))
  {
    assert [m][1..] == [];
  }

  // A placeholder that completes a value not yet begun.
  function Nothing(before: Text): Element {
    Element(before, Word(NULL), [])
  }

  lemma NothingText(before: Text)
    ensures ElementText(Nothing(before)) == before + NULL
  {
    assert before + NULL + [] == before + NULL;
  }

  // A comma behind `first`, and what follows it.
  lemma AfterComma(raw: Text, start: nat, i: nat, r: ScanResult, first: Text, rest: Text, close: int)
    requires start <= i <= |raw| && raw[start..i] == first && Accounts(raw, i, r, [COMMA] + (rest + [close]))
    ensures Accounts(raw, start, r, first + [COMMA] + rest + [close])
  {
    Join(raw, start, i, r, first, [COMMA] + (rest + [close]));
    assert first + ([COMMA] + (rest + [close])) == first + [COMMA] + rest + [close];
  }

  // Whitespace behind an opening mark, and what follows it.
  lemma BehindMark(raw: Text, i: nat, start: nat, r: ScanResult, rest: Text, close: int)
    requires i < start <= |raw| && Accounts(raw, start, r, rest + [close])
    ensures Accounts(raw, i, r, [raw[i]] + (raw[i + 1..start] + rest + [close]))
  {
    var ws := raw[i + 1..start];
    Touch(raw, i, i);
    Join(raw, i + 1, start, r, ws, rest + [close]);
    Join(raw, i, i + 1, r, [raw[i]], ws + (rest + [close]));
    assert ws + (rest + [close]) == ws + rest + [close];
  }

  lemma Stopped(raw: Text, start: nat, i: nat, r: ScanResult, text: Text, close: int)
    requires start <= i <= |raw| && raw[start..i] == text
    requires r == Fail(i) || (r == Ok(i + 1) && i < |raw| && raw[i] == close)
    ensures Accounts(raw, start, r, text + [close])
  {
    if r.Ok? { Touch(raw, start, i); }
  }

  lemma {:induction false} ValueScanned(raw: Text, start: nat) returns (before: Text, t: Tree)
    requires start <= |raw|
    ensures Blank(before) && Valid(t) && Accounts(raw, start, ScanValue(raw, start), before + TreeText(t))
    decreases |raw| - start, 2
  {
    var i := SkipWhitespace(raw, start);
    before := raw[start..i];
    SkippedIsBlank(raw, start);
    if i == |raw| {
      t := Word(NULL);
    } else {
      t := TokenScanned(raw, i);
      Join(raw, start, i, ScanToken(raw, i), before, TreeText(t));
    }
  }

  lemma {:induction false} SkipTwice(raw: Text, start: nat)
    requires start <= |raw|
    ensures SkipWhitespace(raw, SkipWhitespace(raw, start)) == SkipWhitespace(raw, start)
    ensures ScanValue(raw, SkipWhitespace(raw, start)) == ScanValue(raw, start)
  {}

  lemma {:induction false} TokenScanned(raw: Text, i: nat) returns (t: Tree)
    requires i < |raw|
    ensures Valid(t) && Accounts(raw, i, ScanToken(raw, i), TreeText(t))
    decreases |raw| - i, 1
  {
    if raw[i] == OPEN_BRACE {
      t := ObjectScanned(raw, i);
    } else if raw[i] == OPEN_BRACKET {
      t := ArrayScanned(raw, i);
    } else if raw[i] == QUOTE {
      var chars := StringScanned(raw, i);
      t := Str(chars);
    } else if raw[i] == MINUS || IsDigit(raw[i]) {
      t := NumberScanned(raw, i);
    } else {
      t := WordScanned(raw, i);
    }
  }

  lemma {:induction false} ArrayScanned(raw: Text, i: nat) returns (t: Tree)
    requires i < |raw| && raw[i] == OPEN_BRACKET
    ensures Valid(t) && Accounts(raw, i, ScanArray(raw, i), TreeText(t))
    decreases |raw| - i, 0
  {
    var r, start := ScanArray(raw, i), SkipWhitespace(raw, i + 1);
    var ws := raw[i + 1..start];
    SkippedIsBlank(raw, i + 1);
    Touch(raw, i, i);
    if At(raw, start) == CLOSE_BRACKET || start == |raw| {
      t := Array(ws, []);
      assert raw[i..start] == [OPEN_BRACKET] + ws;
      if start < |raw| { Touch(raw, i, start); }
    } else {
      var items := ElementsScanned(raw, start);
      ShiftedElements(ws, items);
      t := Array([], Shifted(ws, items));
      BehindMark(raw, i, start, r, ElementsText(items), CLOSE_BRACKET);
      assert TreeText(t) == [OPEN_BRACKET] + (ws + ElementsText(items) + [CLOSE_BRACKET]);
    }
  }

  lemma {:induction false} ElementsScanned(raw: Text, start: nat) returns (items: seq<Element>)
    requires start <= |raw|
    ensures items != [] && ValidElements(items)
    ensures Accounts(raw, start, ScanElements(raw, start), ElementsText(items) + [CLOSE_BRACKET])
    decreases |raw| - start, 3
  {
    var r := ScanElements(raw, start);
    var before, t := ValueScanned(raw, start);
    var value := ScanValue(raw, start);
    if value.Fail? {
      items := [Element(before, t, [])];
      OneElement(items[0]);
      assert ElementText(items[0]) == before + TreeText(t);
      Longer(raw, start, r, before + TreeText(t), [CLOSE_BRACKET]);
    } else {
      var i := SkipWhitespace(raw, value.next);
      SkippedIsBlank(raw, value.next);
      var e := Element(before, t, raw[value.next..i]);
      assert raw[start..i] == raw[start..value.next] + raw[value.next..i];
      assert r == BehindElement(raw, i);
      if At(raw, i) != COMMA {
        items := [e];
        OneElement(e);
        Stopped(raw, start, i, r, ElementText(e), CLOSE_BRACKET);
      } else {
        var rest := MoreElements(raw, i);
        items := [e] + rest;
        ConsElements(e, rest);
        AfterComma(raw, start, i, r, ElementText(e), ElementsText(rest), CLOSE_BRACKET);
      }
    }
  }

  lemma {:induction false} MoreElements(raw: Text, i: nat) returns (rest: seq<Element>)
    requires i < |raw| && raw[i] == COMMA
    ensures rest != [] && ValidElements(rest)
    ensures Accounts(raw, i, BehindElement(raw, i), [COMMA] + (ElementsText(rest) + [CLOSE_BRACKET]))
    decreases |raw| - i, 0
  {
    var r, next := BehindElement(raw, i), SkipWhitespace(raw, i + 1);
    var ws := raw[i + 1..next];
    SkippedIsBlank(raw, i + 1);
    Touch(raw, i, i);
    if next == |raw| || raw[next] == CLOSE_BRACKET {
      rest := [Nothing(ws)];
      OneElement(rest[0]);
      NothingText(ws);
      Begun(raw, i, next, NULL, CLOSE_BRACKET);
    } else {
      var items := ElementsScanned(raw, next);
      ShiftedElements(ws, items);
      rest := Shifted(ws, items);
      BehindMark(raw, i, next, r, ElementsText(items), CLOSE_BRACKET);
    }
  }

  lemma Begun(raw: Text, i: nat, next: nat, rest: Text, close: int)
    requires i < next <= |raw|
    ensures Accounts(raw, i, Fail(next), [raw[i]] + (raw[i + 1..next] + rest + [close]))
  {
    var ws := raw[i + 1..next];
    assert raw[i..next] == [raw[i]] + ws;
    assert [raw[i]] + (ws + rest + [close]) == [raw[i]] + ws + (rest + [close]);
  }

  lemma {:induction false} ObjectScanned(raw: Text, i: nat) returns (t: Tree)
    requires i < |raw| && raw[i] == OPEN_BRACE
    ensures Valid(t) && Accounts(raw, i, ScanObject(raw, i), TreeText(t))
    decreases |raw| - i, 0
  {
    var r, start := ScanObject(raw, i), SkipWhitespace(raw, i + 1);
    var ws := raw[i + 1..start];
    SkippedIsBlank(raw, i + 1);
    Touch(raw, i, i);
    if At(raw, start) == CLOSE_BRACE || start == |raw| {
      t := Object(ws, []);
      assert raw[i..start] == [OPEN_BRACE] + ws;
      if start < |raw| { Touch(raw, i, start); }
    } else {
      var members := MembersScanned(raw, start);
      ShiftedMembers(ws, members);
      t := Object([], [ShiftedMember(ws, members[0])] + members[1..]);
      BehindMark(raw, i, start, r, MembersText(members), CLOSE_BRACE);
      assert TreeText(t) == [OPEN_BRACE] + (ws + MembersText(members) + [CLOSE_BRACE]);
    }
  }

  lemma KeyScanned(raw: Text, start: nat) returns (before: Text, chars: seq<Char>, beforeColon: Text)
    requires start <= |raw|
    ensures Blank(before) && ValidChars(chars) && Blank(beforeColon)
    ensures Accounts(raw, start, ScanKey(raw, start), before + StringText(chars) + beforeColon + [COLON])
  {
    var r, i := ScanKey(raw, start), SkipWhitespace(raw, start);
    before, beforeColon, chars := raw[start..i], [], [];
    SkippedIsBlank(raw, start);
    if i == |raw| || raw[i] != QUOTE {
    } else {
      chars := StringScanned(raw, i);
      var key := ScanChars(raw, i + 1);
      Join(raw, start, i, key, before, StringText(chars));
      if key.Fail? {
        Longer(raw, start, r, before + StringText(chars), beforeColon);
        Longer(raw, start, r, before + StringText(chars) + beforeColon, [COLON]);
      } else {
        beforeColon := ColonScanned(raw, start, key.next, r, before + StringText(chars));
      }
    }
  }

  lemma ColonScanned(raw: Text, start: nat, next: nat, r: ScanResult, text: Text) returns (beforeColon: Text)
    requires start <= next <= |raw| && raw[start..next] == text
    requires var colon := SkipWhitespace(raw, next);
             r == if At(raw, colon) == COLON then Ok(colon + 1) else Fail(colon)
    ensures Blank(beforeColon) && Accounts(raw, start, r, text + beforeColon + [COLON])
  {
    var colon := SkipWhitespace(raw, next);
    SkippedIsBlank(raw, next);
    beforeColon := raw[next..colon];
    assert raw[start..colon] == text + beforeColon;
    Stopped(raw, start, colon, r, text + beforeColon, COLON);
  }

  lemma {:induction false} MembersScanned(raw: Text, start: nat) returns (members: seq<Member>)
    requires start <= |raw|
    ensures members != [] && ValidMembers(members)
    ensures Accounts(raw, start, ScanMembers(raw, start), MembersText(members) + [CLOSE_BRACE])
    decreases |raw| - start, 3
  {
    var r, key := ScanMembers(raw, start), ScanKey(raw, start);
    var before, chars, beforeColon := KeyScanned(raw, start);
    var head := before + StringText(chars) + beforeColon + [COLON];
    if key.Fail? {
      var m := Member(before, chars, beforeColon, Nothing([]));
      members := [m];
      OneMember(m);
      NothingText([]);
      assert [] + NULL == NULL;
      Longer(raw, start, r, head, NULL);
      Longer(raw, start, r, head + NULL, [CLOSE_BRACE]);
    } else {
      members := MemberScanned(raw, start, key.next, before, chars, beforeColon);
    }
  }

  lemma {:induction false} MemberScanned(
      raw: Text, start: nat, next: nat, before: Text, chars: seq<Char>, beforeColon: Text)
    returns (members: seq<Member>)
    requires start < next <= |raw| && ScanKey(raw, start) == Ok(next)
    requires Blank(before) && ValidChars(chars) && Blank(beforeColon)
    requires raw[start..next] == before + StringText(chars) + beforeColon + [COLON]
    ensures members != [] && ValidMembers(members)
    ensures Accounts(raw, start, ScanMembers(raw, start), MembersText(members) + [CLOSE_BRACE])
    decreases |raw| - start, 2
  {
    var r, value := BehindKey(raw, next), ScanValue(raw, next);
    assert ScanMembers(raw, start) == r;
    var blank, t := ValueScanned(raw, next);
    if value.Fail? {
      var m := Member(before, chars, beforeColon, Element(blank, t, []));
      members := [m];
      OneMember(m);
      MemberStopped(raw, start, next, r, blank, t);
    } else {
      var i := SkipWhitespace(raw, value.next);
      SkippedIsBlank(raw, value.next);
      var m := Member(before, chars, beforeColon, Element(blank, t, raw[value.next..i]));
      Three(raw, start, next, value.next, i);
      members := MemberPassed(raw, start, i, m);
    }
  }

  lemma MemberStopped(raw: Text, start: nat, next: nat, r: ScanResult, blank: Text, t: Tree)
    requires start <= next <= |raw| && r.Fail? && Accounts(raw, next, r, blank + TreeText(t))
    ensures Accounts(raw, start, r, raw[start..next] + ElementText(Element(blank, t, [])) + [CLOSE_BRACE])
  {
    Join(raw, start, next, r, raw[start..next], blank + TreeText(t));
    assert blank + TreeText(t) + [] == blank + TreeText(t);
    Longer(raw, start, r, raw[start..next] + (blank + TreeText(t)), [CLOSE_BRACE]);
  }

  lemma Three(raw: Text, a: nat, b: nat, c: nat, d: nat)
    requires a <= b <= c <= d <= |raw|
    ensures raw[a..d] == raw[a..b] + (raw[b..c] + raw[c..d])
  {}

  lemma {:induction false} MemberPassed(raw: Text, start: nat, i: nat, m: Member) returns (members: seq<Member>)
    requires start < i <= |raw| && ValidMember(m) && raw[start..i] == MemberText(m)
    ensures members != [] && ValidMembers(members)
    ensures Accounts(raw, start, BehindMember(raw, i), MembersText(members) + [CLOSE_BRACE])
    decreases |raw| - start, 1
  {
    if At(raw, i) != COMMA {
      members := [m];
      OneMember(m);
      Stopped(raw, start, i, BehindMember(raw, i), MemberText(m), CLOSE_BRACE);
    } else {
      var rest := MoreMembers(raw, i);
      members := [m] + rest;
      ConsMembers(m, rest);
      AfterComma(raw, start, i, BehindMember(raw, i), MemberText(m), MembersText(rest), CLOSE_BRACE);
    }
  }

  lemma {:induction false} MoreMembers(raw: Text, i: nat) returns (rest: seq<Member>)
    requires i < |raw| && raw[i] == COMMA
    ensures rest != [] && ValidMembers(rest)
    ensures Accounts(raw, i, BehindMember(raw, i), [COMMA] + (MembersText(rest) + [CLOSE_BRACE]))
    decreases |raw| - i, 0
  {
    var r, next := BehindMember(raw, i), SkipWhitespace(raw, i + 1);
    var ws := raw[i + 1..next];
    SkippedIsBlank(raw, i + 1);
    Touch(raw, i, i);
    if next == |raw| || raw[next] == CLOSE_BRACE {
      var m := Member([], [], [], Nothing([]));
      rest := [ShiftedMember(ws, m)];
      OneMember(m);
      ShiftedMembers(ws, [m]);
      assert [ShiftedMember(ws, [m][0])] + [m][1..] == rest;
      Begun(raw, i, next, MembersText([m]), CLOSE_BRACE);
    } else {
      var members := MembersScanned(raw, next);
      ShiftedMembers(ws, members);
      rest := [ShiftedMember(ws, members[0])] + members[1..];
      BehindMark(raw, i, next, r, MembersText(members), CLOSE_BRACE);
    }
  }

  // ---------------------------------------------------------------- documents

  lemma DocumentScanned(raw: Text) returns (e: Element)
    ensures ValidElement(e) && Accounts(raw, 0, ScanDocument(raw), ElementText(e))
  {
    var value := ScanValue(raw, 0);
    var before, t := ValueScanned(raw, 0);
    if value.Fail? {
      e := Element(before, t, []);
      assert ElementText(e) == before + TreeText(t);
    } else {
      var end := SkipWhitespace(raw, value.next);
      SkippedIsBlank(raw, value.next);
      e := Element(before, t, raw[value.next..end]);
      assert raw[0..end] == raw[0..value.next] + raw[value.next..end];
    }
  }

  lemma PassedIsDocument(raw: Text)
    requires ScanDocument(raw).Ok?
    ensures IsDocument(raw)
  {
    var e := DocumentScanned(raw);
    assert raw[0..|raw|] == raw;
  }

  // The text in front of the reported offset can always be completed to a document.
  lemma TextBeforeTheOffsetIsCompletable(raw: Text)
    requires ScanDocument(raw).Fail?
    ensures Completable(raw[..Reach(raw, ScanDocument(raw))])
  {
    var e := DocumentScanned(raw);
    var n := Reach(raw, ScanDocument(raw));
    assert raw[0..n] == raw[..n] == ElementText(e)[..n];
    assert raw[..n] + ElementText(e)[n..] == ElementText(e);
    assert IsDocument(raw[..n] + ElementText(e)[n..]);
  }
}

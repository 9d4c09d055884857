// The locator: the scanner's loops, and the line and column of the offset it reports.
module JsonLocate {
  import opened Prelude
  import opened JsonGrammar
  import Scan = JsonScan
  import JsonScanComplete

  datatype LineColumn = LineColumn(line: nat, column: int)

  const NEWLINE := '\n' as int

  // Line breaks in front of `offset`, and the position behind the last of them.
  function Newlines(raw: Text, offset: nat): nat
    decreases offset
  {
    if offset == 0 then 0
    else Newlines(raw, offset - 1) + if offset - 1 < |raw| && raw[offset - 1] == NEWLINE then 1 else 0
  }

  function LineStart(raw: Text, offset: nat): (start: nat)
    ensures start <= offset
    decreases offset
  {
    if offset == 0 then 0
    else if offset - 1 < |raw| && raw[offset - 1] == NEWLINE then offset
    else LineStart(raw, offset - 1)
  }

  function Place(raw: Text, offset: nat): LineColumn {
    LineColumn(1 + Newlines(raw, offset), offset - LineStart(raw, offset) + 1)
  }

  lemma {:induction false} LaterOffset(raw: Text, a: nat, b: nat)
    requires a < b
    ensures Newlines(raw, a) <= Newlines(raw, b)
    ensures Newlines(raw, a) == Newlines(raw, b) ==> LineStart(raw, a) == LineStart(raw, b)
    decreases b
  {
    if a < b - 1 { LaterOffset(raw, a, b - 1); }
  }

  // Line and column name one offset.
  lemma PlaceIsUnique(raw: Text, a: nat, b: nat)
    requires Place(raw, a) == Place(raw, b)
    ensures a == b
  {
    if a < b { LaterOffset(raw, a, b); }
    if b < a { LaterOffset(raw, b, a); }
  }

  method SkipWhitespace(raw: Text, i: nat) returns (pos: nat)
    requires i <= |raw|
    ensures pos == Scan.SkipWhitespace(raw, i)
  {
    pos := i;
    while pos < |raw| && IsWhitespace(raw[pos])
      invariant i <= pos <= |raw|
      invariant Scan.SkipWhitespace(raw, i) == Scan.SkipWhitespace(raw, pos)
    {
      pos := pos + 1;
    }
  }

  method ScanString(raw: Text, i: nat) returns (r: Scan.ScanResult)
    requires i < |raw| && raw[i] == QUOTE
    ensures r == Scan.ScanChars(raw, i + 1)
  {
    var pos := i + 1;
    while pos < |raw|
      invariant pos > i
      invariant Scan.ScanChars(raw, i + 1) == Scan.ScanChars(raw, pos)
    {
      if raw[pos] == QUOTE { return Scan.Ok(pos + 1); }
      if raw[pos] == BACKSLASH {
        pos := pos + 2;
        continue;
      }
      pos := pos + 1;
    }
    return Scan.Fail(pos);
  }

  method SkipDigits(raw: Text, i: nat) returns (pos: nat)
    requires i <= |raw|
    ensures pos == Scan.SkipDigits(raw, i)
  {
    pos := i;
    while IsDigit(Scan.At(raw, pos))
      invariant i <= pos <= |raw|
      invariant Scan.SkipDigits(raw, i) == Scan.SkipDigits(raw, pos)
      decreases |raw| - pos
    {
      pos := pos + 1;
    }
  }

  method ScanNumber(raw: Text, i: nat) returns (r: Scan.ScanResult)
    requires i < |raw|
    ensures r == Scan.ScanNumber(raw, i)
  {
    var pos := i;
    if raw[pos] == MINUS { pos := pos + 1; }
    if !IsDigit(Scan.At(raw, pos)) { return Scan.Fail(pos); }
    if raw[pos] == ZERO {
      pos := pos + 1;
    } else {
      pos := SkipDigits(raw, pos);
    }
    assert Scan.ScanNumber(raw, i) == Scan.ScanFraction(raw, pos);
    if Scan.At(raw, pos) == POINT {
      pos := pos + 1;
      if !IsDigit(Scan.At(raw, pos)) { return Scan.Fail(pos); }
      pos := SkipDigits(raw, pos);
    }
    r := ScanExponent(raw, pos);
  }

  method ScanExponent(raw: Text, i: nat) returns (r: Scan.ScanResult)
    requires i <= |raw|
    ensures r == Scan.ScanExponent(raw, i)
  {
    var pos := i;
    if IsExponent(Scan.At(raw, pos)) {
      pos := pos + 1;
      if Scan.At(raw, pos) == PLUS || Scan.At(raw, pos) == MINUS { pos := pos + 1; }
      if !IsDigit(Scan.At(raw, pos)) { return Scan.Fail(pos); }
      pos := SkipDigits(raw, pos);
    }
    return Scan.Ok(pos);
  }

  method ScanObject(raw: Text, i: nat) returns (r: Scan.ScanResult)
    requires i < |raw|
    ensures r == Scan.ScanObject(raw, i)
    decreases |raw| - i, 0
  {
    var pos := SkipWhitespace(raw, i + 1);
    if pos >= |raw| { return Scan.Fail(pos); }
    if raw[pos] == CLOSE_BRACE { return Scan.Ok(pos + 1); }
    while true
      invariant i < pos <= |raw|
      invariant Scan.ScanObject(raw, i) == Scan.ScanMembers(raw, pos)
      decreases |raw| - pos
    {
      var key := ScanKey(raw, pos);
      if key.Fail? { return key; }
      var value := ScanValue(raw, key.next);
      if value.Fail? { return value; }
      pos := SkipWhitespace(raw, value.next);
      assert Scan.ScanObject(raw, i) == Scan.BehindMember(raw, pos);
      if pos >= |raw| { return Scan.Fail(pos); }
      if raw[pos] == COMMA {
        pos := SkipWhitespace(raw, pos + 1);
        if pos >= |raw| { return Scan.Fail(pos); }
        if raw[pos] == CLOSE_BRACE { return Scan.Fail(pos); }
        continue;
      }
      if raw[pos] == CLOSE_BRACE { return Scan.Ok(pos + 1); }
      return Scan.Fail(pos);
    }
  }

  method ScanKey(raw: Text, start: nat) returns (r: Scan.ScanResult)
    requires start <= |raw|
    ensures r == Scan.ScanKey(raw, start)
  {
    var pos := SkipWhitespace(raw, start);
    if pos >= |raw| { return Scan.Fail(pos); }
    if raw[pos] != QUOTE { return Scan.Fail(pos); }
    var key := ScanString(raw, pos);
    if key.Fail? { return key; }
    pos := SkipWhitespace(raw, key.next);
    if pos >= |raw| { return Scan.Fail(pos); }
    if raw[pos] != COLON { return Scan.Fail(pos); }
    return Scan.Ok(pos + 1);
  }

  method ScanArray(raw: Text, i: nat) returns (r: Scan.ScanResult)
    requires i < |raw|
    ensures r == Scan.ScanArray(raw, i)
    decreases |raw| - i, 0
  {
    var pos := SkipWhitespace(raw, i + 1);
    if pos >= |raw| { return Scan.Fail(pos); }
    if raw[pos] == CLOSE_BRACKET { return Scan.Ok(pos + 1); }
    while true
      invariant i < pos <= |raw|
      invariant Scan.ScanArray(raw, i) == Scan.ScanElements(raw, pos)
      decreases |raw| - pos
    {
      var value := ScanValue(raw, pos);
      if value.Fail? { return value; }
      pos := SkipWhitespace(raw, value.next);
      assert Scan.ScanArray(raw, i) == Scan.BehindElement(raw, pos);
      if pos >= |raw| { return Scan.Fail(pos); }
      if raw[pos] == COMMA {
        pos := SkipWhitespace(raw, pos + 1);
        if pos >= |raw| { return Scan.Fail(pos); }
        if raw[pos] == CLOSE_BRACKET { return Scan.Fail(pos); }
        continue;
      }
      if raw[pos] == CLOSE_BRACKET { return Scan.Ok(pos + 1); }
      return Scan.Fail(pos);
    }
  }

  method ScanValue(raw: Text, start: nat) returns (r: Scan.ScanResult)
    requires start <= |raw|
    ensures r == Scan.ScanValue(raw, start)
    decreases |raw| - start, 1
  {
    var i := SkipWhitespace(raw, start);
    if i >= |raw| { return Scan.Fail(i); }
    var ch := raw[i];
    if ch == OPEN_BRACE {
      r := ScanObject(raw, i);
    } else if ch == OPEN_BRACKET {
      r := ScanArray(raw, i);
    } else if ch == QUOTE {
      r := ScanString(raw, i);
    } else if ch == MINUS || IsDigit(ch) {
      r := ScanNumber(raw, i);
    } else if Scan.StartsWith(raw, i, TRUE) {
      r := Scan.Ok(i + 4);
    } else if Scan.StartsWith(raw, i, FALSE) {
      r := Scan.Ok(i + 5);
    } else if Scan.StartsWith(raw, i, NULL) {
      r := Scan.Ok(i + 4);
    } else {
      r := Scan.Fail(i);
    }
  }

  method OffsetToLineColumn(raw: Text, offset: nat) returns (r: LineColumn)
    ensures r == Place(raw, offset)
  {
    var line, lastNewlineAt := 1, -1;
    var i := 0;
    while i < offset && i < |raw|
      invariant i <= offset && i <= |raw|
      invariant line == 1 + Newlines(raw, i)
      invariant lastNewlineAt == LineStart(raw, i) - 1
    {
      if raw[i] == NEWLINE { line, lastNewlineAt := line + 1, i; }
      i := i + 1;
    }
    BehindTheEnd(raw, i, offset);
    return LineColumn(line, offset - lastNewlineAt);
  }

  lemma {:induction false} BehindTheEnd(raw: Text, i: nat, offset: nat)
    requires i <= offset && (i < offset ==> i >= |raw|)
    ensures Newlines(raw, offset) == Newlines(raw, i) && LineStart(raw, offset) == LineStart(raw, i)
    decreases offset
  {
    if i < offset { BehindTheEnd(raw, i, offset - 1); }
  }

  // Nothing to report exactly when the text is a document of the grammar.
  method LocateFirstJsonSyntaxError(raw: Text) returns (r: Option<LineColumn>)
    ensures r.None? <==> IsDocument(raw)
    ensures r.Some? ==> Scan.ScanDocument(raw).Fail? && r.value == Place(raw, Scan.ScanDocument(raw).offset)
  {
    JsonScanComplete.PassesExactlyTheDocuments(raw);
    var result := ScanValue(raw, 0);
    if result.Fail? {
      var place := OffsetToLineColumn(raw, result.offset);
      return Some(place);
    }
    var trailing := SkipWhitespace(raw, result.next);
    if trailing < |raw| {
      var place := OffsetToLineColumn(raw, trailing);
      return Some(place);
    }
    return None;
  }
}

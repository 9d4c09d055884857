// The scanner that pins the first deviation from the JSON grammar, as functions of the text
// and a position.
module JsonScan {
  import opened JsonGrammar

  datatype ScanResult = Ok(next: nat) | Fail(offset: nat)

  function SkipWhitespace(raw: Text, i: nat): (next: nat)
    requires i <= |raw|
    ensures i <= next <= |raw| && (next < |raw| ==> !IsWhitespace(raw[next]))
    decreases |raw| - i
  {
    if i < |raw| && IsWhitespace(raw[i]) then SkipWhitespace(raw, i + 1) else i
  }

  // The character at `i`, or something no token starts with behind the end.
  function At(raw: Text, i: nat): int {
    if i < |raw| then raw[i] else -1
  }

  // `i` stands behind the opening quote, or inside the string. An escape may jump past the end.
  function ScanChars(raw: Text, i: nat): (r: ScanResult)
    ensures r.Ok? ==> i < r.next <= |raw|
    ensures r.Fail? ==> |raw| <= r.offset
    decreases |raw| + 2 - i
  {
    if i >= |raw| then Fail(i)
    else if raw[i] == QUOTE then Ok(i + 1)
    else if raw[i] == BACKSLASH then ScanChars(raw, i + 2)
    else ScanChars(raw, i + 1)
  }

  function SkipDigits(raw: Text, i: nat): (next: nat)
    requires i <= |raw|
    ensures i <= next <= |raw| && !IsDigit(At(raw, next))
    ensures IsDigit(At(raw, i)) ==> i < next
    decreases |raw| - i
  {
    if IsDigit(At(raw, i)) then SkipDigits(raw, i + 1) else i
  }

  function ScanExponent(raw: Text, i: nat): (r: ScanResult)
    requires i <= |raw|
    ensures r.Ok? ==> i <= r.next <= |raw|
    ensures r.Fail? ==> i <= r.offset <= |raw|
  {
    if IsExponent(At(raw, i)) then
      var digits := if At(raw, i + 1) == PLUS || At(raw, i + 1) == MINUS then i + 2 else i + 1;
      if IsDigit(At(raw, digits)) then Ok(SkipDigits(raw, digits)) else Fail(digits)
    else Ok(i)
  }

  function ScanFraction(raw: Text, i: nat): (r: ScanResult)
    requires i <= |raw|
    ensures r.Ok? ==> i <= r.next <= |raw|
    ensures r.Fail? ==> i <= r.offset <= |raw|
  {
    if At(raw, i) == POINT then
      if IsDigit(At(raw, i + 1)) then ScanExponent(raw, SkipDigits(raw, i + 1)) else Fail(i + 1)
    else ScanExponent(raw, i)
  }

  function ScanNumber(raw: Text, i: nat): (r: ScanResult)
    requires i <= |raw|
    ensures r.Ok? ==> i < r.next <= |raw|
    ensures r.Fail? ==> i <= r.offset <= |raw|
  {
    var whole := if At(raw, i) == MINUS then i + 1 else i;
    if !IsDigit(At(raw, whole)) then Fail(whole)
    else ScanFraction(raw, if At(raw, whole) == ZERO then whole + 1 else SkipDigits(raw, whole))
  }

  predicate SameUnit(raw: Text, i: nat, word: Text, k: nat) {
    i + k < |raw| && k < |word| && raw[i + k] == word[k]
  }

  predicate StartsWith(raw: Text, i: nat, word: Text) {
    i + |word| <= |raw| && forall k: nat :: k < |word| ==> SameUnit(raw, i, word, k)
  }

  function ScanValue(raw: Text, start: nat): (r: ScanResult)
    requires start <= |raw|
    ensures r.Ok? ==> start < r.next <= |raw|
    ensures r.Fail? ==> start <= r.offset
    decreases |raw| - start, 2
  {
    var i := SkipWhitespace(raw, start);
    if i == |raw| then Fail(i) else ScanToken(raw, i)
  }

  // The value that starts right at `i`.
  function ScanToken(raw: Text, i: nat): (r: ScanResult)
    requires i < |raw|
    ensures r.Ok? ==> i < r.next <= |raw|
    ensures r.Fail? ==> i <= r.offset
    decreases |raw| - i, 1
  {
    if raw[i] == OPEN_BRACE then ScanObject(raw, i)
    else if raw[i] == OPEN_BRACKET then ScanArray(raw, i)
    else if raw[i] == QUOTE then ScanChars(raw, i + 1)
    else if raw[i] == MINUS || IsDigit(raw[i]) then ScanNumber(raw, i)
    else if StartsWith(raw, i, TRUE) then Ok(i + 4)
    else if StartsWith(raw, i, FALSE) then Ok(i + 5)
    else if StartsWith(raw, i, NULL) then Ok(i + 4)
    else Fail(i)
  }

  function ScanArray(raw: Text, i: nat): (r: ScanResult)
    requires i < |raw|
    ensures r.Ok? ==> i < r.next <= |raw|
    ensures r.Fail? ==> i < r.offset
    decreases |raw| - i, 0
  {
    var start := SkipWhitespace(raw, i + 1);
    if At(raw, start) == CLOSE_BRACKET then Ok(start + 1)
    else if start == |raw| then Fail(start)
    else ScanElements(raw, start)
  }

  // From the start of an element to behind the closing bracket.
  function ScanElements(raw: Text, start: nat): (r: ScanResult)
    requires start <= |raw|
    ensures r.Ok? ==> start < r.next <= |raw|
    ensures r.Fail? ==> start <= r.offset
    decreases |raw| - start, 3
  {
    var value := ScanValue(raw, start);
    if value.Fail? then value else BehindElement(raw, SkipWhitespace(raw, value.next))
  }

  // Behind an element and its whitespace: another one, or the closing bracket.
  function BehindElement(raw: Text, i: nat): (r: ScanResult)
    requires i <= |raw|
    ensures r.Ok? ==> i < r.next <= |raw|
    ensures r.Fail? ==> i <= r.offset
    decreases |raw| - i, 3
  {
    if At(raw, i) == COMMA then
      var next := SkipWhitespace(raw, i + 1);
      if next == |raw| || raw[next] == CLOSE_BRACKET then Fail(next) else ScanElements(raw, next)
    else if At(raw, i) == CLOSE_BRACKET then Ok(i + 1)
    else Fail(i)
  }

  function ScanObject(raw: Text, i: nat): (r: ScanResult)
    requires i < |raw|
    ensures r.Ok? ==> i < r.next <= |raw|
    ensures r.Fail? ==> i < r.offset
    decreases |raw| - i, 0
  {
    var start := SkipWhitespace(raw, i + 1);
    if At(raw, start) == CLOSE_BRACE then Ok(start + 1)
    else if start == |raw| then Fail(start)
    else ScanMembers(raw, start)
  }

  // The key of a member, up to behind its colon.
  function ScanKey(raw: Text, start: nat): (r: ScanResult)
    requires start <= |raw|
    ensures r.Ok? ==> start < r.next <= |raw|
    ensures r.Fail? ==> start <= r.offset
  {
    var i := SkipWhitespace(raw, start);
    if i == |raw| || raw[i] != QUOTE then Fail(i)
    else
      var key := ScanChars(raw, i + 1);
      if key.Fail? then key
      else
        var colon := SkipWhitespace(raw, key.next);
        if At(raw, colon) == COLON then Ok(colon + 1) else Fail(colon)
  }

  // From the start of a member to behind the closing brace.
  function ScanMembers(raw: Text, start: nat): (r: ScanResult)
    requires start <= |raw|
    ensures r.Ok? ==> start < r.next <= |raw|
    ensures r.Fail? ==> start <= r.offset
    decreases |raw| - start, 3
  {
    var key := ScanKey(raw, start);
    if key.Fail? then key else BehindKey(raw, key.next)
  }

  // The value of a member, and what follows it.
  function BehindKey(raw: Text, start: nat): (r: ScanResult)
    requires start <= |raw|
    ensures r.Ok? ==> start < r.next <= |raw|
    ensures r.Fail? ==> start <= r.offset
    decreases |raw| - start, 3
  {
    var value := ScanValue(raw, start);
    if value.Fail? then value else BehindMember(raw, SkipWhitespace(raw, value.next))
  }

  // Behind a member and its whitespace: another one, or the closing brace.
  function BehindMember(raw: Text, i: nat): (r: ScanResult)
    requires i <= |raw|
    ensures r.Ok? ==> i < r.next <= |raw|
    ensures r.Fail? ==> i <= r.offset
    decreases |raw| - i, 3
  {
    if At(raw, i) == COMMA then
      var next := SkipWhitespace(raw, i + 1);
      if next == |raw| || raw[next] == CLOSE_BRACE then Fail(next) else ScanMembers(raw, next)
    else if At(raw, i) == CLOSE_BRACE then Ok(i + 1)
    else Fail(i)
  }

  // Where the text first deviates; `Ok` when it is a document.
  function ScanDocument(raw: Text): ScanResult {
    var value := ScanValue(raw, 0);
    if value.Fail? then value
    else
      var end := SkipWhitespace(raw, value.next);
      if end < |raw| then Fail(end) else Ok(end)
  }
}

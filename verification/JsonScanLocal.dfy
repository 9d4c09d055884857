// A reported offset depends on nothing behind it but a word spelt out there: exactly when the
// text up to and with the reported character can go on to a document.
module JsonScanLocal {
  import opened JsonGrammar
  import opened JsonScan
  import opened JsonScanSound
  import opened JsonScanComplete

  ghost predicate Agree(a: Text, b: Text, n: nat) {
    n <= |a| && n <= |b| && forall k :: 0 <= k < n ==> a[k] == b[k]
  }

  function Position(r: ScanResult): nat {
    if r.Ok? then r.next else r.offset
  }

  // A word is pinned at its first letter, though its text may still complete it.
  predicate StartsWord(c: int) {
    c == TRUE[0] || c == FALSE[0] || c == NULL[0]
  }

  // The word that letter starts.
  function WordOf(c: int): (word: Text)
    requires StartsWord(c)
    ensures word != [] && word[0] == c && (word == TRUE || word == FALSE || word == NULL)
  {
    if c == TRUE[0] then TRUE else if c == FALSE[0] then FALSE else NULL
  }

  // At `i`, text `b` has no word that `a` lacks.
  ghost predicate NoNewWord(a: Text, b: Text, i: nat) {
    && (StartsWith(b, i, TRUE) ==> StartsWith(a, i, TRUE))
    && (StartsWith(b, i, FALSE) ==> StartsWith(a, i, FALSE))
    && (StartsWith(b, i, NULL) ==> StartsWith(a, i, NULL))
  }

  // The scan of `a` came to its verdict inside the text that `b` shares.
  ghost predicate Decided(a: Text, b: Text, r: ScanResult) {
    && Position(r) < |a|
    && Agree(a, b, Position(r) + 1)
    && (r.Fail? ==> NoNewWord(a, b, r.offset))
  }

  lemma {:induction false} SkipLocal(a: Text, b: Text, i: nat)
    requires i <= |a| && SkipWhitespace(a, i) < |a| && Agree(a, b, SkipWhitespace(a, i) + 1)
    ensures i <= |b| && SkipWhitespace(b, i) == SkipWhitespace(a, i)
    decreases |a| - i
  {
    if IsWhitespace(a[i]) { SkipLocal(a, b, i + 1); }
  }

  lemma {:induction false} CharsLocal(a: Text, b: Text, i: nat)
    requires ScanChars(a, i).Ok? && Agree(a, b, ScanChars(a, i).next)
    ensures ScanChars(b, i) == ScanChars(a, i)
    decreases |a| + 2 - i
  {
    if a[i] == QUOTE {
    } else if a[i] == BACKSLASH {
      CharsLocal(a, b, i + 2);
    } else {
      CharsLocal(a, b, i + 1);
    }
  }

  lemma {:induction false} DigitsLocal(a: Text, b: Text, i: nat)
    requires i <= |a| && SkipDigits(a, i) < |a| && Agree(a, b, SkipDigits(a, i) + 1)
    ensures i <= |b| && SkipDigits(b, i) == SkipDigits(a, i)
    decreases |a| - i
  {
    if IsDigit(a[i]) { DigitsLocal(a, b, i + 1); }
  }

  lemma ExponentLocal(a: Text, b: Text, i: nat)
    requires i <= |a| && Position(ScanExponent(a, i)) < |a| && Agree(a, b, Position(ScanExponent(a, i)) + 1)
    ensures i <= |b| && ScanExponent(b, i) == ScanExponent(a, i)
  {
    if IsExponent(At(a, i)) {
      var digits := if At(a, i + 1) == PLUS || At(a, i + 1) == MINUS then i + 2 else i + 1;
      if IsDigit(At(a, digits)) { DigitsLocal(a, b, digits); }
    }
  }

  lemma FractionLocal(a: Text, b: Text, i: nat)
    requires i <= |a| && Position(ScanFraction(a, i)) < |a| && Agree(a, b, Position(ScanFraction(a, i)) + 1)
    ensures i <= |b| && ScanFraction(b, i) == ScanFraction(a, i)
  {
    if At(a, i) == POINT {
      if IsDigit(At(a, i + 1)) {
        ExponentLocal(a, b, SkipDigits(a, i + 1));
        DigitsLocal(a, b, i + 1);
      }
    } else {
      ExponentLocal(a, b, i);
    }
  }

  lemma NumberLocal(a: Text, b: Text, i: nat)
    requires i <= |a| && Position(ScanNumber(a, i)) < |a| && Agree(a, b, Position(ScanNumber(a, i)) + 1)
    ensures i <= |b| && ScanNumber(b, i) == ScanNumber(a, i)
  {
    var whole := if At(a, i) == MINUS then i + 1 else i;
    if IsDigit(At(a, whole)) {
      var end := if At(a, whole) == ZERO then whole + 1 else SkipDigits(a, whole);
      FractionLocal(a, b, end);
      if At(a, whole) != ZERO { DigitsLocal(a, b, whole); }
    }
  }

  lemma WordLocal(a: Text, b: Text, i: nat, word: Text)
    requires Agree(a, b, i + |word|)
    ensures StartsWith(a, i, word) <==> StartsWith(b, i, word)
  {
    if StartsWith(a, i, word) {
      forall k: nat | k < |word| ensures SameUnit(b, i, word, k) { assert SameUnit(a, i, word, k); }
    }
    if StartsWith(b, i, word) {
      forall k: nat | k < |word| ensures SameUnit(a, i, word, k) { assert SameUnit(b, i, word, k); }
    }
  }

  lemma NotThisWord(b: Text, i: nat, word: Text)
    requires word != [] && At(b, i) != word[0]
    ensures !StartsWith(b, i, word)
  {
    assert !SameUnit(b, i, word, 0);
  }

  lemma WordsLocal(a: Text, b: Text, i: nat)
    requires i < |a| && Decided(a, b, ScanToken(a, i))
    requires a[i] != OPEN_BRACE && a[i] != OPEN_BRACKET && a[i] != QUOTE && a[i] != MINUS && !IsDigit(a[i])
    ensures i < |b| && ScanToken(b, i) == ScanToken(a, i)
  {
    assert b[i] == a[i];
    if StartsWith(a, i, TRUE) {
      WordLocal(a, b, i, TRUE);
    } else if StartsWith(a, i, FALSE) {
      assert SameUnit(a, i, FALSE, 0);
      NotThisWord(b, i, TRUE);
      WordLocal(a, b, i, FALSE);
    } else if StartsWith(a, i, NULL) {
      assert SameUnit(a, i, NULL, 0);
      NotThisWord(b, i, TRUE);
      NotThisWord(b, i, FALSE);
      WordLocal(a, b, i, NULL);
    }
  }

  lemma {:induction false} TokenLocal(a: Text, b: Text, i: nat)
    requires i < |a| && Decided(a, b, ScanToken(a, i))
    ensures i < |b| && ScanToken(b, i) == ScanToken(a, i)
    decreases |a| - i, 1
  {
    assert b[i] == a[i];
    if a[i] == OPEN_BRACE {
      ObjectLocal(a, b, i);
    } else if a[i] == OPEN_BRACKET {
      ArrayLocal(a, b, i);
    } else if a[i] == QUOTE {
      CharsLocal(a, b, i + 1);
    } else if a[i] == MINUS || IsDigit(a[i]) {
      NumberLocal(a, b, i);
    } else {
      WordsLocal(a, b, i);
    }
  }

  lemma {:induction false} ValueLocal(a: Text, b: Text, start: nat)
    requires start <= |a| && Decided(a, b, ScanValue(a, start))
    ensures start <= |b| && ScanValue(b, start) == ScanValue(a, start)
    decreases |a| - start, 2
  {
    var i := SkipWhitespace(a, start);
    SkipLocal(a, b, start);
    TokenLocal(a, b, i);
  }

  lemma {:induction false} ArrayLocal(a: Text, b: Text, i: nat)
    requires i < |a| && Decided(a, b, ScanArray(a, i))
    ensures i < |b| && ScanArray(b, i) == ScanArray(a, i)
    decreases |a| - i, 0
  {
    var start := SkipWhitespace(a, i + 1);
    SkipLocal(a, b, i + 1);
    if a[start] != CLOSE_BRACKET { ElementsLocal(a, b, start); }
  }

  lemma {:induction false} ElementsLocal(a: Text, b: Text, start: nat)
    requires start <= |a| && Decided(a, b, ScanElements(a, start))
    ensures start <= |b| && ScanElements(b, start) == ScanElements(a, start)
    decreases |a| - start, 3
  {
    var value := ScanValue(a, start);
    if value.Ok? {
      var i := SkipWhitespace(a, value.next);
      BehindElementLocal(a, b, i);
      SkipLocal(a, b, value.next);
    }
    ValueLocal(a, b, start);
  }

  lemma {:induction false} BehindElementLocal(a: Text, b: Text, i: nat)
    requires i <= |a| && Decided(a, b, BehindElement(a, i))
    ensures i < |a| && i <= |b| && BehindElement(b, i) == BehindElement(a, i)
    decreases |a| - i, 3
  {
    if At(a, i) == COMMA {
      var next := SkipWhitespace(a, i + 1);
      SkipLocal(a, b, i + 1);
      if next < |a| && a[next] != CLOSE_BRACKET { ElementsLocal(a, b, next); }
    }
  }

  lemma {:induction false} ObjectLocal(a: Text, b: Text, i: nat)
    requires i < |a| && Decided(a, b, ScanObject(a, i))
    ensures i < |b| && ScanObject(b, i) == ScanObject(a, i)
    decreases |a| - i, 0
  {
    var start := SkipWhitespace(a, i + 1);
    SkipLocal(a, b, i + 1);
    if a[start] != CLOSE_BRACE { MembersLocal(a, b, start); }
  }

  lemma KeyLocal(a: Text, b: Text, start: nat)
    requires start <= |a| && Position(ScanKey(a, start)) < |a| && Agree(a, b, Position(ScanKey(a, start)) + 1)
    ensures start <= |b| && ScanKey(b, start) == ScanKey(a, start)
  {
    var i := SkipWhitespace(a, start);
    SkipLocal(a, b, start);
    if a[i] == QUOTE {
      var key := ScanChars(a, i + 1);
      SkipLocal(a, b, key.next);
      CharsLocal(a, b, i + 1);
    }
  }

  lemma {:induction false} MembersLocal(a: Text, b: Text, start: nat)
    requires start <= |a| && Decided(a, b, ScanMembers(a, start))
    ensures start <= |b| && ScanMembers(b, start) == ScanMembers(a, start)
    decreases |a| - start, 3
  {
    var key := ScanKey(a, start);
    if key.Ok? { BehindKeyLocal(a, b, key.next); }
    KeyLocal(a, b, start);
  }

  lemma {:induction false} BehindKeyLocal(a: Text, b: Text, start: nat)
    requires start <= |a| && Decided(a, b, BehindKey(a, start))
    ensures start < |a| && start <= |b| && BehindKey(b, start) == BehindKey(a, start)
    decreases |a| - start, 3
  {
    var value := ScanValue(a, start);
    if value.Ok? {
      var i := SkipWhitespace(a, value.next);
      BehindMemberLocal(a, b, i);
      SkipLocal(a, b, value.next);
    }
    ValueLocal(a, b, start);
  }

  lemma {:induction false} BehindMemberLocal(a: Text, b: Text, i: nat)
    requires i <= |a| && Decided(a, b, BehindMember(a, i))
    ensures i < |a| && i <= |b| && BehindMember(b, i) == BehindMember(a, i)
    decreases |a| - i, 3
  {
    if At(a, i) == COMMA {
      var next := SkipWhitespace(a, i + 1);
      SkipLocal(a, b, i + 1);
      if next < |a| && a[next] != CLOSE_BRACE { MembersLocal(a, b, next); }
    }
  }

  lemma DocumentLocal(a: Text, b: Text)
    requires ScanDocument(a).Fail? && Decided(a, b, ScanDocument(a))
    ensures ScanDocument(b) == ScanDocument(a)
  {
    var value := ScanValue(a, 0);
    if value.Ok? { SkipLocal(a, b, value.next); }
    ValueLocal(a, b, 0);
  }

  // A letter inside a word starts none.
  lemma InnerLetters(word: Text, k: nat)
    requires (word == TRUE || word == FALSE || word == NULL) && 0 < k < |word|
    ensures !StartsWord(word[k])
  {
  }

  lemma WordInside(a: Text, i: nat, word: Text, o: nat)
    requires StartsWith(a, i, word) && (word == TRUE || word == FALSE || word == NULL)
    requires i < o < i + |word|
    ensures !StartsWord(a[o])
  {
    assert SameUnit(a, i, word, o - i);
    InnerLetters(word, o - i);
  }

  // The document with prefix `raw[..o + 1]` spells the word out.
  lemma DocumentSpellsWord(raw: Text, o: nat, doc: Text)
    requires ScanDocument(raw) == Fail(o) && o < |raw| && Agree(raw, doc, o + 1) && IsDocument(doc)
    ensures StartsWord(raw[o]) && StartsWith(doc, o, WordOf(raw[o]))
  {
    DocumentIsPassed(doc);
    if NoNewWord(raw, doc, o) {
      DocumentLocal(raw, doc);
      assert false;
    }
    if StartsWith(doc, o, TRUE) { assert SameUnit(doc, o, TRUE, 0); }
    if StartsWith(doc, o, FALSE) { assert SameUnit(doc, o, FALSE, 0); }
    if StartsWith(doc, o, NULL) { assert SameUnit(doc, o, NULL, 0); }
  }

  // The text before the reported letter, with the word it starts spelt out.
  function Spelt(raw: Text, o: nat): (text: Text)
    requires o < |raw| && StartsWord(raw[o])
    ensures Agree(raw, text, o + 1)
  {
    raw[..o] + WordOf(raw[o])
  }

  // The document agrees with the spelt-out text on all of it.
  lemma SpeltInDocument(raw: Text, o: nat, doc: Text)
    requires o < |raw| && StartsWord(raw[o]) && Agree(raw, doc, o + 1) && StartsWith(doc, o, WordOf(raw[o]))
    ensures Agree(Spelt(raw, o), doc, o + 1) && NoNewWord(Spelt(raw, o), doc, o)
  {
    var word, text := WordOf(raw[o]), Spelt(raw, o);
    forall k: nat | k < |word| ensures SameUnit(text, o, word, k) {}
    assert StartsWith(text, o, word);
    if word != TRUE { NotThisWord(doc, o, TRUE); }
    if word != FALSE { NotThisWord(doc, o, FALSE); }
    if word != NULL { NotThisWord(doc, o, NULL); }
  }

  // Spelling the word out does not make the scan stop earlier.
  lemma SpeltStopsNoEarlier(raw: Text, o: nat)
    requires ScanDocument(raw) == Fail(o) && o < |raw| && StartsWord(raw[o])
    ensures ScanDocument(Spelt(raw, o)).Fail? ==> ScanDocument(Spelt(raw, o)).offset >= o
  {
    var text := Spelt(raw, o);
    var r := ScanDocument(text);
    if r.Fail? && r.offset < o {
      NoNewWordBefore(text, raw, r.offset, o);
      DocumentLocal(text, raw);
      assert false;
    }
  }

  lemma NoNewWordBefore(a: Text, b: Text, i: nat, o: nat)
    requires i < o < |b| && Agree(a, b, o) && StartsWord(b[o])
    ensures NoNewWord(a, b, i)
  {
    NoNewWordHere(a, b, i, o, TRUE);
    NoNewWordHere(a, b, i, o, FALSE);
    NoNewWordHere(a, b, i, o, NULL);
  }

  lemma NoNewWordHere(a: Text, b: Text, i: nat, o: nat, word: Text)
    requires i < o < |b| && Agree(a, b, o) && StartsWord(b[o])
    requires word == TRUE || word == FALSE || word == NULL
    ensures StartsWith(b, i, word) ==> StartsWith(a, i, word)
  {
    if i + |word| <= o {
      WordLocal(a, b, i, word);
    } else if StartsWith(b, i, word) {
      WordInside(b, i, word, o);
      assert false;
    }
  }

  // The text up to and with the reported character can be completed if and only if that
  // character starts a word and, with the word spelt out behind the text in front of it, the
  // scan no longer stops there.
  lemma TextWithTheOffsetIsCompletableExactly(raw: Text)
    requires ScanDocument(raw).Fail? && ScanDocument(raw).offset < |raw|
    ensures var o := ScanDocument(raw).offset;
            Completable(raw[..o + 1]) <==> StartsWord(raw[o]) && ScanDocument(Spelt(raw, o)) != Fail(o)
  {
    var o := ScanDocument(raw).offset;
    if Completable(raw[..o + 1]) {
      var rest: Text :| IsDocument(raw[..o + 1] + rest);
      var doc := raw[..o + 1] + rest;
      DocumentSpellsWord(raw, o, doc);
      SpeltInDocument(raw, o, doc);
      DocumentIsPassed(doc);
      if ScanDocument(Spelt(raw, o)) == Fail(o) { DocumentLocal(Spelt(raw, o), doc); }
    }
    if StartsWord(raw[o]) && ScanDocument(Spelt(raw, o)) != Fail(o) {
      SpeltStopsNoEarlier(raw, o);
      SpeltIsCompletable(raw, o);
    }
  }

  lemma SpeltIsCompletable(raw: Text, o: nat)
    requires o < |raw| && StartsWord(raw[o])
    requires ScanDocument(Spelt(raw, o)).Fail? ==> ScanDocument(Spelt(raw, o)).offset > o
    ensures Completable(raw[..o + 1])
  {
    var text := Spelt(raw, o);
    if ScanDocument(text).Ok? {
      PassedIsDocument(text);
      CompletedBy(raw[..o + 1], text, text);
    } else {
      TextBeforeTheOffsetIsCompletable(text);
      var n := Reach(text, ScanDocument(text));
      var rest: Text :| IsDocument(text[..n] + rest);
      CompletedBy(raw[..o + 1], text[..n], text[..n] + rest);
    }
  }

  lemma CompletedBy(front: Text, longer: Text, doc: Text)
    requires front <= longer <= doc && IsDocument(doc)
    ensures Completable(front)
  {
    assert front + doc[|front|..] == doc;
  }

  // So a misspelt word is pinned where it starts, and its start can be completed.
  lemma MisspeltWordIsPinnedAtItsStart()
    ensures var raw := ['n' as int, 'o' as int];
            ScanDocument(raw) == Fail(0) && Completable(raw[..1])
  {
    var raw := ['n' as int, 'o' as int];
    assert SkipWhitespace(raw, 0) == 0;
    assert ScanToken(raw, 0) == Fail(0) by {
      assert !StartsWith(raw, 0, TRUE) && !StartsWith(raw, 0, FALSE) && !StartsWith(raw, 0, NULL);
    }
    assert ScanDocument(raw) == Fail(0);
    var e := Element([], Word(NULL), []);
    assert Valid(e.value) && ValidElement(e);
    assert ElementText(e) == [] + NULL + [] == NULL;
    assert raw[..1] == NULL[..1] && raw[..1] + NULL[1..] == NULL;
    assert IsDocument(raw[..1] + NULL[1..]);
  }
}

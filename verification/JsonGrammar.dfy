// The JSON texts of sections 2 to 7 of RFC 8259 as trees and the text they render to.
// Strings are structural: a backslash and whatever follows it. Text is a sequence of UTF-16
// code units.
module JsonGrammar {
  type Text = seq<int>

  const TRUE: Text := ['t' as int, 'r' as int, 'u' as int, 'e' as int]
  const FALSE: Text := ['f' as int, 'a' as int, 'l' as int, 's' as int, 'e' as int]
  const NULL: Text := ['n' as int, 'u' as int, 'l' as int, 'l' as int]

  const QUOTE := '"' as int
  const BACKSLASH := '\\' as int
  const COMMA := ',' as int
  const COLON := ':' as int
  const OPEN_BRACE := '{' as int
  const CLOSE_BRACE := '}' as int
  const OPEN_BRACKET := '[' as int
  const CLOSE_BRACKET := ']' as int
  const MINUS := '-' as int
  const PLUS := '+' as int
  const POINT := '.' as int
  const ZERO := '0' as int

  predicate IsWhitespace(c: int) {
    c == ' ' as int || c == '\t' as int || c == '\n' as int || c == '\r' as int
  }

  predicate IsDigit(c: int) {
    ZERO <= c <= '9' as int
  }

  predicate IsExponent(c: int) {
    c == 'e' as int || c == 'E' as int
  }

  ghost predicate Blank(ws: Text) {
    forall i :: 0 <= i < |ws| ==> IsWhitespace(ws[i])
  }

  ghost predicate Digits(text: Text) {
    text != [] && forall i :: 0 <= i < |text| ==> IsDigit(text[i])
  }

  datatype Char = Plain(c: int) | Escaped(c: int)

  datatype Tree =
    | Word(text: Text)
    | Number(minus: bool, whole: Text, fraction: Text, exponent: Text)
    | Str(chars: seq<Char>)
    | Array(inner: Text, items: seq<Element>)
    | Object(inner: Text, members: seq<Member>)

  datatype Element = Element(before: Text, value: Tree, after: Text)
  datatype Member = Member(before: Text, key: seq<Char>, beforeColon: Text, element: Element)

  // ---------------------------------------------------------------- well-formed trees

  ghost predicate ValidChar(c: Char) {
    c.Plain? ==> c.c != QUOTE && c.c != BACKSLASH
  }

  ghost predicate ValidChars(chars: seq<Char>) {
    forall i :: 0 <= i < |chars| ==> ValidChar(chars[i])
  }

  // No leading zeros.
  ghost predicate ValidWhole(text: Text) {
    Digits(text) && (text[0] == ZERO ==> |text| == 1)
  }

  ghost predicate ValidFraction(text: Text) {
    text == [] || (text[0] == POINT && Digits(text[1..]))
  }

  ghost predicate ValidExponent(text: Text) {
    text == [] ||
    (IsExponent(text[0])
     && (Digits(text[1..]) || (|text| > 1 && (text[1] == PLUS || text[1] == MINUS) && Digits(text[2..]))))
  }

  ghost predicate Valid(t: Tree)
    decreases t, 0
  {
    match t
    case Word(text) => text == TRUE || text == FALSE || text == NULL
    case Number(_, whole, fraction, exponent) => ValidWhole(whole) && ValidFraction(fraction) && ValidExponent(exponent)
    case Str(chars) => ValidChars(chars)
    case Array(inner, items) => Blank(inner) && ValidElements(items)
    case Object(inner, members) => Blank(inner) && ValidMembers(members)
  }

  ghost predicate ValidElement(e: Element)
    decreases e, 1
  {
    Blank(e.before) && Valid(e.value) && Blank(e.after)
  }

  ghost predicate ValidMember(m: Member)
    decreases m, 2
  {
    Blank(m.before) && ValidChars(m.key) && Blank(m.beforeColon) && ValidElement(m.element)
  }

  ghost predicate ValidElements(items: seq<Element>)
    decreases items, 2
  {
    items == [] || (ValidElement(items[0]) && ValidElements(items[1..]))
  }

  ghost predicate ValidMembers(members: seq<Member>)
    decreases members, 3
  {
    members == [] || (ValidMember(members[0]) && ValidMembers(members[1..]))
  }

  // ---------------------------------------------------------------- text

  function CharText(c: Char): Text {
    if c.Plain? then [c.c] else [BACKSLASH, c.c]
  }

  function CharsText(chars: seq<Char>): Text {
    if chars == [] then [] else CharText(chars[0]) + CharsText(chars[1..])
  }

  function StringText(chars: seq<Char>): Text {
    [QUOTE] + CharsText(chars) + [QUOTE]
  }

  function TreeText(t: Tree): Text
    decreases t, 0
  {
    match t
    case Word(text) => text
    case Number(minus, whole, fraction, exponent) => (if minus then [MINUS] else []) + whole + fraction + exponent
    case Str(chars) => StringText(chars)
    case Array(inner, items) => [OPEN_BRACKET] + (if items == [] then inner else ElementsText(items)) + [CLOSE_BRACKET]
    case Object(inner, members) =>
      [OPEN_BRACE] + (if members == [] then inner else MembersText(members)) + [CLOSE_BRACE]
  }

  function ElementText(e: Element): Text
    decreases e, 1
  {
    e.before + TreeText(e.value) + e.after
  }

  // Elements separated by commas.
  function ElementsText(items: seq<Element>): Text
    decreases items, 2
  {
    if items == [] then []
    else if |items| == 1 then ElementText(items[0])
    else ElementText(items[0]) + [COMMA] + ElementsText(items[1..])
  }

  function MemberText(m: Member): Text
    decreases m, 2
  {
    m.before + StringText(m.key) + m.beforeColon + [COLON] + ElementText(m.element)
  }

  function MembersText(members: seq<Member>): Text
    decreases members, 3
  {
    if members == [] then []
    else if |members| == 1 then MemberText(members[0])
    else MemberText(members[0]) + [COMMA] + MembersText(members[1..])
  }

  // One value with whitespace around it.
  ghost predicate IsDocument(raw: Text) {
    exists e: Element :: ValidElement(e) && raw == ElementText(e)
  }

  // Some text completes `front` to a document.
  ghost predicate Completable(front: Text) {
    exists rest: Text :: IsDocument(front + rest)
  }
}

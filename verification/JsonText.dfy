/**
 JSON texts (sections 2 to 7 of RFC 8259) as sequences of UTF-16 code units.

 A syntax tree keeps every choice a text can make: whitespace, the spelling of each string
 character and of each number.  Printing takes the text that follows, so `Print(x, rest)` is
 the text of `x` and then `rest`.
 */
module JsonText {
  type Unit = nat
  type Text = seq<Unit>

  const QUOTE: Unit := 34
  const PLUS: Unit := 43
  const COMMA: Unit := 44
  const MINUS: Unit := 45
  const DOT: Unit := 46
  const ZERO: Unit := 48
  const COLON: Unit := 58
  const OPEN_ARRAY: Unit := 91
  const BACKSLASH: Unit := 92
  const CLOSE_ARRAY: Unit := 93
  const LOWER_U: Unit := 117
  const OPEN_OBJECT: Unit := 123
  const CLOSE_OBJECT: Unit := 125
  const BYTE_ORDER_MARK: Unit := 0xFEFF

  predicate Blank(u: Unit) { u == 9 || u == 10 || u == 13 || u == 32 }

  predicate Digit(u: Unit) { 48 <= u <= 57 }

  predicate HexDigit(u: Unit) { Digit(u) || 65 <= u <= 70 || 97 <= u <= 102 }

  function HexValue(u: Unit): int {
    if u <= 57 then u - 48 else if u <= 70 then u - 55 else u - 87
  }

  /** The letters of the short escapes: quote, backslash, slash, b, f, n, r, t. */
  predicate ShortEscape(u: Unit) {
    u == QUOTE || u == BACKSLASH || u == 47 || u == 98 || u == 102 || u == 110 || u == 114 || u == 116
  }

  function ShortValue(u: Unit): Unit {
    if u == 98 then 8 else if u == 102 then 12 else if u == 110 then 10
    else if u == 114 then 13 else if u == 116 then 9 else u
  }

  /** The three literals: true, false, null. */
  function Spelling(which: nat): Text {
    if which == 0 then [116, 114, 117, 101]
    else if which == 1 then [102, 97, 108, 115, 101]
    else [110, 117, 108, 108]
  }

  // ----- syntax trees -----

  datatype Piece = Plain(unit: Unit) | Short(letter: Unit) | Hex(a: Unit, b: Unit, c: Unit, d: Unit)

  datatype Exponent = NoExponent | Exponent(letter: Unit, sign: Text, digits: Text)

  /** `fraction` is empty or the digits after the point. */
  datatype Number = Number(minus: bool, whole: Text, fraction: Text, exponent: Exponent)

  datatype Value =
    | Str(pieces: seq<Piece>)
    | Num(number: Number)
    | Literal(which: nat)
    | EmptyArray(inside: Text)
    | Array(items: Items)
    | EmptyObject(inside: Text)
    | Object(members: Members)

  datatype Padded = Padded(before: Text, value: Value, after: Text)

  datatype Items = LastItem(item: Padded) | MoreItems(item: Padded, items: Items)

  datatype Key = Key(before: Text, pieces: seq<Piece>, after: Text)

  datatype Members =
    | LastMember(key: Key, value: Padded)
    | MoreMembers(key: Key, value: Padded, members: Members)

  // ----- which trees are JSON -----

  predicate Blanks(t: Text) { forall i :: 0 <= i < |t| ==> Blank(t[i]) }

  predicate Digits(t: Text) { |t| > 0 && forall i :: 0 <= i < |t| ==> Digit(t[i]) }

  predicate PieceOk(p: Piece) {
    match p
    case Plain(u) => u >= 32 && u != QUOTE && u != BACKSLASH
    case Short(u) => ShortEscape(u)
    case Hex(a, b, c, d) => HexDigit(a) && HexDigit(b) && HexDigit(c) && HexDigit(d)
  }

  predicate PiecesOk(ps: seq<Piece>) { forall i :: 0 <= i < |ps| ==> PieceOk(ps[i]) }

  predicate ExponentOk(e: Exponent) {
    e.Exponent? ==>
      && (e.letter == 69 || e.letter == 101)
      && (e.sign == [] || e.sign == [PLUS] || e.sign == [MINUS])
      && Digits(e.digits)
  }

  predicate NumberOk(n: Number) {
    && Digits(n.whole) && (n.whole[0] == ZERO ==> |n.whole| == 1)
    && (n.fraction == [] || Digits(n.fraction)) && ExponentOk(n.exponent)
  }

  predicate ValueOk(v: Value) {
    match v
    case Str(ps) => PiecesOk(ps)
    case Num(n) => NumberOk(n)
    case Literal(which) => which < 3
    case EmptyArray(ws) => Blanks(ws)
    case Array(items) => ItemsOk(items)
    case EmptyObject(ws) => Blanks(ws)
    case Object(members) => MembersOk(members)
  }

  predicate PaddedOk(p: Padded) { Blanks(p.before) && ValueOk(p.value) && Blanks(p.after) }

  predicate ItemsOk(items: Items) {
    PaddedOk(items.item) && (items.MoreItems? ==> ItemsOk(items.items))
  }

  predicate KeyOk(k: Key) { Blanks(k.before) && PiecesOk(k.pieces) && Blanks(k.after) }

  predicate MembersOk(ms: Members) {
    KeyOk(ms.key) && PaddedOk(ms.value) && (ms.MoreMembers? ==> MembersOk(ms.members))
  }

  // ----- their texts -----

  function PrintPieces(ps: seq<Piece>, rest: Text): Text {
    if ps == [] then rest
    else
      var tail := PrintPieces(ps[1..], rest);
      match ps[0]
      case Plain(u) => [u] + tail
      case Short(u) => [BACKSLASH, u] + tail
      case Hex(a, b, c, d) => [BACKSLASH, LOWER_U, a, b, c, d] + tail
  }

  function PrintString(ps: seq<Piece>, rest: Text): Text {
    [QUOTE] + PrintPieces(ps, [QUOTE] + rest)
  }

  function PrintExponent(e: Exponent, rest: Text): Text {
    if e.NoExponent? then rest else [e.letter] + (e.sign + (e.digits + rest))
  }

  function PrintNumber(n: Number, rest: Text): Text {
    var tail := PrintExponent(n.exponent, rest);
    var fraction := if n.fraction == [] then tail else [DOT] + (n.fraction + tail);
    (if n.minus then [MINUS] else []) + (n.whole + fraction)
  }

  function Print(v: Value, rest: Text): Text {
    match v
    case Str(ps) => PrintString(ps, rest)
    case Num(n) => PrintNumber(n, rest)
    case Literal(which) => Spelling(which) + rest
    case EmptyArray(ws) => [OPEN_ARRAY] + (ws + ([CLOSE_ARRAY] + rest))
    case Array(items) => [OPEN_ARRAY] + PrintItems(items, rest)
    case EmptyObject(ws) => [OPEN_OBJECT] + (ws + ([CLOSE_OBJECT] + rest))
    case Object(members) => [OPEN_OBJECT] + PrintMembers(members, rest)
  }

  function PrintPadded(p: Padded, rest: Text): Text {
    p.before + Print(p.value, p.after + rest)
  }

  function PrintItems(items: Items, rest: Text): Text {
    match items
    case LastItem(p) => PrintPadded(p, [CLOSE_ARRAY] + rest)
    case MoreItems(p, more) => PrintPadded(p, [COMMA] + PrintItems(more, rest))
  }

  function PrintMembers(ms: Members, rest: Text): Text {
    var tail := match ms
      case LastMember(_, p) => PrintPadded(p, [CLOSE_OBJECT] + rest)
      case MoreMembers(_, p, more) => PrintPadded(p, [COMMA] + PrintMembers(more, rest));
    ms.key.before + PrintString(ms.key.pieces, ms.key.after + ([COLON] + tail))
  }

  // ----- what strings denote, and repeated keys -----

  /** The code units a string denotes, its escapes resolved (section 7 of RFC 8259). */
  function Decode(ps: seq<Piece>): seq<int> {
    if ps == [] then []
    else
      [match ps[0]
       case Plain(u) => u
       case Short(u) => ShortValue(u)
       case Hex(a, b, c, d) => 4096 * HexValue(a) + 256 * HexValue(b) + 16 * HexValue(c) + HexValue(d)]
      + Decode(ps[1..])
  }

  function Keys(ms: Members): seq<seq<int>> {
    [Decode(ms.key.pieces)] + if ms.MoreMembers? then Keys(ms.members) else []
  }

  predicate NoRepeats(ks: seq<seq<int>>) { forall i, j :: 0 <= i < j < |ks| ==> ks[i] != ks[j] }

  /** No object at any depth names a key twice, however the key is spelled. */
  predicate DistinctKeys(v: Value) {
    match v
    case Array(items) => ItemsDistinct(items)
    case Object(members) => NoRepeats(Keys(members)) && MembersDistinct(members)
    case _ => true
  }

  predicate ItemsDistinct(items: Items) {
    DistinctKeys(items.item.value) && (items.MoreItems? ==> ItemsDistinct(items.items))
  }

  predicate MembersDistinct(ms: Members) {
    DistinctKeys(ms.value.value) && (ms.MoreMembers? ==> MembersDistinct(ms.members))
  }
}

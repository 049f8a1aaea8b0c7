/** The strict recogniser as a function from a text to what is left of it, and its completeness. */
module JsonParser {
  import opened Prelude
  import opened JsonText

  function SkipBlanks(t: Text): (rest: Text)
    ensures |rest| <= |t|
  {
    if t != [] && Blank(t[0]) then SkipBlanks(t[1..]) else t
  }

  function SkipDigits(t: Text): (rest: Text)
    ensures |rest| <= |t|
  {
    if t != [] && Digit(t[0]) then SkipDigits(t[1..]) else t
  }

  predicate Starts(t: Text, u: Unit) { t != [] && t[0] == u }

  /** A string after its opening quote: the pieces it is spelled with, and what follows. */
  function ScanString(t: Text): (r: Option<(seq<Piece>, Text)>)
    ensures r.Some? ==> |r.value.1| < |t|
  {
    if t == [] then None
    else if t[0] == QUOTE then Some(([], t[1..]))
    else if t[0] == BACKSLASH then
      if |t| < 2 then None
      else if t[1] == LOWER_U then
        if |t| < 6 || !(HexDigit(t[2]) && HexDigit(t[3]) && HexDigit(t[4]) && HexDigit(t[5])) then None
        else Prefixed(Hex(t[2], t[3], t[4], t[5]), ScanString(t[6..]))
      else if ShortEscape(t[1]) then Prefixed(Short(t[1]), ScanString(t[2..]))
      else None
    else if t[0] < 32 then None
    else Prefixed(Plain(t[0]), ScanString(t[1..]))
  }

  function Prefixed(p: Piece, r: Option<(seq<Piece>, Text)>): Option<(seq<Piece>, Text)> {
    if r.None? then None else Some(([p] + r.value.0, r.value.1))
  }

  function ParseString(t: Text): (r: Option<(seq<Piece>, Text)>)
    ensures r.Some? ==> |r.value.1| < |t|
  {
    if Starts(t, QUOTE) then ScanString(t[1..]) else None
  }

  function SkipFraction(t: Text): (rest: Text)
    ensures |rest| <= |t|
  {
    if |t| >= 2 && t[0] == DOT && Digit(t[1]) then SkipDigits(t[1..]) else t
  }

  function SkipExponent(t: Text): (rest: Text)
    ensures |rest| <= |t|
  {
    if t == [] || (t[0] != 69 && t[0] != 101) then t
    else
      var after := if |t| >= 2 && (t[1] == PLUS || t[1] == MINUS) then t[2..] else t[1..];
      if after != [] && Digit(after[0]) then SkipDigits(after) else t
  }

  /** The longest number at the front, as the anchored regular expression matches it. */
  function ParseNumber(t: Text): (r: Option<Text>)
    ensures r.Some? ==> |r.value| < |t|
  {
    var a := if Starts(t, MINUS) then t[1..] else t;
    if a == [] || !Digit(a[0]) then None
    else Some(SkipExponent(SkipFraction(if a[0] == ZERO then a[1..] else SkipDigits(a[1..]))))
  }

  function ParseLiteral(t: Text, which: nat): (r: Option<Text>)
    requires which < 3
    ensures r.Some? ==> |r.value| < |t|
  {
    var w := Spelling(which);
    if w <= t then Some(t[|w|..]) else None
  }

  function ParseScalar(t: Text): (r: Option<Text>)
    ensures r.Some? ==> |r.value| < |t|
  {
    if ParseLiteral(t, 0).Some? then ParseLiteral(t, 0)
    else if ParseLiteral(t, 1).Some? then ParseLiteral(t, 1)
    else if ParseLiteral(t, 2).Some? then ParseLiteral(t, 2)
    else ParseNumber(t)
  }

  /** `parseValue`: what follows the value at the front, or nothing when the text is refused. */
  function ParseValue(t: Text): (r: Option<Text>)
    ensures r.Some? ==> |r.value| < |t|
    decreases |t|, 1
  {
    var u := SkipBlanks(t);
    if Starts(u, OPEN_OBJECT) then
      var w := SkipBlanks(u[1..]);
      if Starts(w, CLOSE_OBJECT) then Some(w[1..]) else ParseMembers(w, {})
    else if Starts(u, OPEN_ARRAY) then
      var w := SkipBlanks(u[1..]);
      if Starts(w, CLOSE_ARRAY) then Some(w[1..]) else ParseItems(w)
    else if Starts(u, QUOTE) then
      var s := ParseString(u);
      if s.None? then None else Some(s.value.1)
    else ParseScalar(u)
  }

  function ParseItems(t: Text): (r: Option<Text>)
    ensures r.Some? ==> |r.value| < |t|
    decreases |t|, 2
  {
    var v := ParseValue(t);
    if v.None? then None
    else
      var w := SkipBlanks(v.value);
      if Starts(w, CLOSE_ARRAY) then Some(w[1..])
      else if Starts(w, COMMA) then ParseItems(w[1..])
      else None
  }

  function ParseMembers(t: Text, keys: set<seq<int>>): (r: Option<Text>)
    ensures r.Some? ==> |r.value| < |t|
    decreases |t|, 2
  {
    var s := ParseString(SkipBlanks(t));
    if s.None? || Decode(s.value.0) in keys then None
    else
      var c := SkipBlanks(s.value.1);
      if !Starts(c, COLON) then None
      else
        var v := ParseValue(c[1..]);
        if v.None? then None
        else
          var w := SkipBlanks(v.value);
          if Starts(w, CLOSE_OBJECT) then Some(w[1..])
          else if Starts(w, COMMA) then ParseMembers(w[1..], keys + {Decode(s.value.0)})
          else None
  }

  /** The whole check: an optional byte order mark, one value, and nothing but whitespace after it. */
  predicate Accepts(raw: Text) {
    var t := WithoutMark(raw);
    var v := ParseValue(t);
    v.Some? && SkipBlanks(v.value) == []
  }

  function WithoutMark(raw: Text): Text {
    if Starts(raw, BYTE_ORDER_MARK) then raw[1..] else raw
  }

  // ----- every printed tree is read back -----

  lemma {:induction false} BlanksSkipped(ws: Text, rest: Text)
    requires Blanks(ws) && (rest == [] || !Blank(rest[0]))
    ensures SkipBlanks(ws + rest) == rest
  {
    if ws == [] { assert ws + rest == rest; }
    else {
      assert (ws + rest)[1..] == ws[1..] + rest;
      BlanksSkipped(ws[1..], rest);
    }
  }

  lemma {:induction false} DigitsSkipped(ds: Text, rest: Text)
    requires (forall i :: 0 <= i < |ds| ==> Digit(ds[i])) && (rest == [] || !Digit(rest[0]))
    ensures SkipDigits(ds + rest) == rest
  {
    if ds == [] { assert ds + rest == rest; }
    else {
      assert (ds + rest)[1..] == ds[1..] + rest;
      DigitsSkipped(ds[1..], rest);
    }
  }

  lemma {:induction false} PiecesScanned(ps: seq<Piece>, rest: Text)
    requires PiecesOk(ps)
    ensures ScanString(PrintPieces(ps, [QUOTE] + rest)) == Some((ps, rest))
  {
    if ps != [] {
      PiecesScanned(ps[1..], rest);
      var tail := PrintPieces(ps[1..], [QUOTE] + rest);
      assert PieceOk(ps[0]);
      match ps[0] {
        case Plain(u) => assert ([u] + tail)[1..] == tail;
        case Short(u) => assert ([BACKSLASH, u] + tail)[2..] == tail;
        case Hex(a, b, c, d) => assert ([BACKSLASH, LOWER_U, a, b, c, d] + tail)[6..] == tail;
      }
      assert [ps[0]] + ps[1..] == ps;
    }
  }

  lemma {:induction false} StringParsed(ps: seq<Piece>, rest: Text)
    requires PiecesOk(ps)
    ensures ParseString(PrintString(ps, rest)) == Some((ps, rest))
  {
    PiecesScanned(ps, rest);
    assert ([QUOTE] + PrintPieces(ps, [QUOTE] + rest))[1..] == PrintPieces(ps, [QUOTE] + rest);
  }

  /** What may follow a value: nothing, whitespace, a comma or a closing bracket. */
  predicate Delimited(rest: Text) {
    rest == [] || Blank(rest[0]) || rest[0] == COMMA || rest[0] == CLOSE_ARRAY || rest[0] == CLOSE_OBJECT
  }

  lemma {:induction false} DelimiterEndsNumbers(rest: Text)
    requires Delimited(rest) && rest != []
    ensures !Digit(rest[0]) && rest[0] != DOT && rest[0] != 69 && rest[0] != 101
  {
  }

  lemma {:induction false} ExponentSkipped(e: Exponent, rest: Text)
    requires ExponentOk(e) && Delimited(rest)
    ensures SkipExponent(PrintExponent(e, rest)) == rest
    ensures var t := PrintExponent(e, rest); t == [] || (!Digit(t[0]) && t[0] != DOT)
  {
    if rest != [] { DelimiterEndsNumbers(rest); }
    if e.Exponent? {
      var digits := e.digits + rest;
      var t := PrintExponent(e, rest);
      assert t[1..] == e.sign + digits;
      if e.sign == [] { assert e.sign + digits == digits; } else { assert t[2..] == digits; }
      DigitsSkipped(e.digits, rest);
    }
  }

  lemma {:induction false} FractionSkipped(f: Text, tail: Text)
    requires f == [] || Digits(f)
    requires tail == [] || (!Digit(tail[0]) && tail[0] != DOT)
    ensures var t := if f == [] then tail else [DOT] + (f + tail);
            SkipFraction(t) == tail && (t == [] || !Digit(t[0]))
  {
    if f != [] {
      assert ([DOT] + (f + tail))[1..] == f + tail;
      DigitsSkipped(f, tail);
    }
  }

  lemma {:induction false} WholeParsed(minus: bool, whole: Text, tail: Text)
    requires Digits(whole) && (whole[0] == ZERO ==> |whole| == 1) && (tail == [] || !Digit(tail[0]))
    ensures var t := (if minus then [MINUS] else []) + (whole + tail);
            && (t[0] == MINUS || Digit(t[0]))
            && ParseNumber(t) == Some(SkipExponent(SkipFraction(tail)))
  {
    hide SkipFraction, SkipExponent;
    var a := whole + tail;
    var t := (if minus then [MINUS] else []) + a;
    assert a[0] == whole[0] && Digit(a[0]);
    assert a[1..] == whole[1..] + tail;
    DigitsSkipped(whole[1..], tail);
    if minus { assert t[1..] == a; } else { assert t == a; }
    if whole[0] == ZERO { assert a[1..] == tail; }
  }

  lemma {:induction false} NumberParsed(n: Number, rest: Text)
    requires NumberOk(n) && Delimited(rest)
    ensures ParseNumber(PrintNumber(n, rest)) == Some(rest)
    ensures var t := PrintNumber(n, rest); t[0] == MINUS || Digit(t[0])
  {
    hide ParseNumber, SkipFraction, SkipExponent, PrintExponent;
    var tail := PrintExponent(n.exponent, rest);
    ExponentSkipped(n.exponent, rest);
    FractionSkipped(n.fraction, tail);
    WholeParsed(n.minus, n.whole, if n.fraction == [] then tail else [DOT] + (n.fraction + tail));
  }

  lemma {:induction false} LiteralParsed(which: nat, rest: Text)
    requires which < 3
    ensures ParseScalar(Spelling(which) + rest) == Some(rest)
  {
    var w := Spelling(which);
    var t := w + rest;
    assert t[|w|..] == rest && t[0] == w[0];
  }

  lemma {:induction false} NumberIsScalar(n: Number, rest: Text)
    requires NumberOk(n) && Delimited(rest)
    ensures ParseScalar(PrintNumber(n, rest)) == Some(rest)
  {
    NumberParsed(n, rest);
    hide ParseNumber;
    var t := PrintNumber(n, rest);
    assert forall which :: 0 <= which < 3 ==> Spelling(which)[0] != t[0];
  }

  /** A value's first code unit decides how it is read, and is never whitespace or a closing mark. */
  lemma {:induction false} FirstUnit(v: Value, rest: Text)
    requires ValueOk(v)
    ensures var t := Print(v, rest);
            && t != [] && !Blank(t[0]) && t[0] != CLOSE_ARRAY && t[0] != CLOSE_OBJECT
            && (t[0] == OPEN_OBJECT <==> v.Object? || v.EmptyObject?)
            && (t[0] == OPEN_ARRAY <==> v.Array? || v.EmptyArray?)
            && (t[0] == QUOTE <==> v.Str?)
  {
    match v
    case Num(n) =>
      var tail := PrintExponent(n.exponent, rest);
      var fraction := if n.fraction == [] then tail else [DOT] + (n.fraction + tail);
      assert Digit(n.whole[0]) && (n.whole + fraction)[0] == n.whole[0];
    case Literal(which) => assert Print(v, rest)[0] == Spelling(which)[0];
    case _ =>
  }

  lemma {:induction false} SkipTwice(t: Text)
    ensures SkipBlanks(SkipBlanks(t)) == SkipBlanks(t)
  {
    if t != [] && Blank(t[0]) { SkipTwice(t[1..]); }
  }

  /** Leading whitespace makes no difference to either list reader. */
  lemma {:induction false} BlanksFirst(t: Text, keys: set<seq<int>>)
    ensures ParseItems(SkipBlanks(t)) == ParseItems(t) && ParseMembers(SkipBlanks(t), keys) == ParseMembers(t, keys)
  {
    SkipTwice(t);
  }

  function Verdict(ok: bool, rest: Text): Option<Text> {
    if ok then Some(rest) else None
  }

  /** A printed value is read exactly when no object in it repeats a key. */
  lemma {:induction false} ValueParsed(before: Text, v: Value, rest: Text)
    requires Blanks(before) && ValueOk(v) && Delimited(rest)
    ensures ParseValue(before + Print(v, rest)) == Verdict(DistinctKeys(v), rest)
    decreases v, 0
  {
    var u := Print(v, rest);
    FirstUnit(v, rest);
    BlanksSkipped(before, u);
    match v
    case Str(ps) => StringParsed(ps, rest);
    case Num(n) => NumberIsScalar(n, rest);
    case Literal(which) => LiteralParsed(which, rest);
    case EmptyArray(ws) =>
      assert u[1..] == ws + ([CLOSE_ARRAY] + rest);
      BlanksSkipped(ws, [CLOSE_ARRAY] + rest);
      assert ([CLOSE_ARRAY] + rest)[1..] == rest;
    case EmptyObject(ws) =>
      assert u[1..] == ws + ([CLOSE_OBJECT] + rest);
      BlanksSkipped(ws, [CLOSE_OBJECT] + rest);
      assert ([CLOSE_OBJECT] + rest)[1..] == rest;
    case Array(items) =>
      assert u[1..] == PrintItems(items, rest);
      ItemsOpen(items, rest);
      BlanksFirst(u[1..], {});
      ItemsParsed(items, rest);
    case Object(members) =>
      assert u[1..] == PrintMembers(members, rest);
      MembersOpen(members, rest);
      BlanksFirst(u[1..], {});
      MembersParsed(members, {}, rest);
  }

  function ItemsTail(items: Items, rest: Text): Text {
    if items.LastItem? then [CLOSE_ARRAY] + rest else [COMMA] + PrintItems(items.items, rest)
  }

  function MembersTail(ms: Members, rest: Text): Text {
    if ms.LastMember? then [CLOSE_OBJECT] + rest else [COMMA] + PrintMembers(ms.members, rest)
  }

  lemma {:induction false} ItemsOpen(items: Items, rest: Text)
    requires ItemsOk(items)
    ensures !Starts(SkipBlanks(PrintItems(items, rest)), CLOSE_ARRAY)
  {
    var p := items.item;
    var after := p.after + ItemsTail(items, rest);
    FirstUnit(p.value, after);
    BlanksSkipped(p.before, Print(p.value, after));
  }

  lemma {:induction false} MembersOpen(ms: Members, rest: Text)
    requires MembersOk(ms)
    ensures !Starts(SkipBlanks(PrintMembers(ms, rest)), CLOSE_OBJECT)
  {
    var p := ms.value;
    var colon := ms.key.after + ([COLON] + PrintPadded(p, MembersTail(ms, rest)));
    BlanksSkipped(ms.key.before, PrintString(ms.key.pieces, colon));
  }

  lemma {:induction false} PaddedParsed(p: Padded, rest: Text)
    requires PaddedOk(p) && Delimited(rest) && rest != [] && !Blank(rest[0])
    ensures var v := ParseValue(PrintPadded(p, rest));
            if DistinctKeys(p.value) then v.Some? && SkipBlanks(v.value) == rest else v.None?
    decreases p, 1
  {
    var after := p.after + rest;
    assert Delimited(after) by { assert p.after != [] ==> Blank(after[0]); }
    ValueParsed(p.before, p.value, after);
    BlanksSkipped(p.after, rest);
  }

  lemma {:induction false} ItemsParsed(items: Items, rest: Text)
    requires ItemsOk(items)
    ensures ParseItems(PrintItems(items, rest)) == Verdict(ItemsDistinct(items), rest)
    decreases items, 2
  {
    var tail := ItemsTail(items, rest);
    PaddedParsed(items.item, tail);
    if items.LastItem? {
      assert tail[1..] == rest;
    } else {
      assert tail[1..] == PrintItems(items.items, rest);
      ItemsParsed(items.items, rest);
    }
    hide ParseValue, PrintPadded;
  }

  /** Keys already seen count as repeated too. */
  lemma {:induction false} MembersParsed(ms: Members, keys: set<seq<int>>, rest: Text)
    requires MembersOk(ms)
    ensures ParseMembers(PrintMembers(ms, rest), keys)
         == Verdict(MembersDistinct(ms) && NoRepeats(Keys(ms)) && forall k :: k in Keys(ms) ==> k !in keys, rest)
    decreases ms, 2
  {
    var tail := MembersTail(ms, rest);
    var padded := PrintPadded(ms.value, tail);
    var colon := [COLON] + padded;
    var key := ms.key;
    BlanksSkipped(key.before, PrintString(key.pieces, key.after + colon));
    StringParsed(key.pieces, key.after + colon);
    BlanksSkipped(key.after, colon);
    assert colon[1..] == padded;
    PaddedParsed(ms.value, tail);
    var k := Decode(key.pieces);
    if ms.LastMember? {
      assert tail[1..] == rest;
      assert Keys(ms) == [k];
    } else {
      assert tail[1..] == PrintMembers(ms.members, rest);
      MembersParsed(ms.members, keys + {k}, rest);
      KeysStep(k, Keys(ms.members), keys);
    }
    hide ParseValue, PrintPadded, PrintString, ParseString, SkipBlanks;
  }

  lemma {:induction false} KeysStep(k: seq<int>, ks: seq<seq<int>>, keys: set<seq<int>>)
    ensures (NoRepeats([k] + ks) && forall x :: x in [k] + ks ==> x !in keys)
        <==> (k !in keys && NoRepeats(ks) && forall x :: x in ks ==> x !in keys + {k})
  {
    NoRepeatsCons(k, ks);
    hide NoRepeats;
    assert forall x :: x in [k] + ks <==> x == k || x in ks;
  }

  lemma {:induction false} NoRepeatsCons(k: seq<int>, ks: seq<seq<int>>)
    ensures NoRepeats([k] + ks) <==> k !in ks && NoRepeats(ks)
  {
    var all := [k] + ks;
    assert all[0] == k && forall i :: 0 <= i < |ks| ==> all[i + 1] == ks[i];
    if NoRepeats(all) {
      forall i, j | 0 <= i < j < |ks| ensures ks[i] != ks[j] { assert all[i + 1] != all[j + 1]; }
      forall i | 0 <= i < |ks| ensures ks[i] != k { assert all[0] != all[i + 1]; }
    }
  }
}

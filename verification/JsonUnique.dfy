/** A JSON text has one reading: two trees with the same text are the same tree. */
module JsonUnique {
  import opened Prelude
  import opened JsonText
  import opened JsonParser

  /** `x` cannot be mistaken for a continuation of a run of whitespace. */
  predicate NoBlank(x: Text) { x == [] || !Blank(x[0]) }

  predicate NoDigit(x: Text) { x == [] || !Digit(x[0]) }

  lemma {:induction false} SplitAt(a: Text, x: Text, b: Text, y: Text)
    requires a + x == b + y && x == y
    ensures a == b
  {
    assert |a| == |b|;
    assert (a + x)[..|a|] == a && (b + y)[..|b|] == b;
  }

  lemma {:induction false} BlanksUnique(a: Text, x: Text, b: Text, y: Text)
    requires Blanks(a) && Blanks(b) && NoBlank(x) && NoBlank(y) && a + x == b + y
    ensures a == b && x == y
  {
    BlanksSkipped(a, x);
    BlanksSkipped(b, y);
    SplitAt(a, x, b, y);
  }

  lemma {:induction false} DigitsUnique(a: Text, x: Text, b: Text, y: Text)
    requires Digits(a) && Digits(b) && NoDigit(x) && NoDigit(y) && a + x == b + y
    ensures a == b && x == y
  {
    DigitsSkipped(a, x);
    DigitsSkipped(b, y);
    SplitAt(a, x, b, y);
  }

  lemma {:induction false} StringUnique(ps: seq<Piece>, x: Text, qs: seq<Piece>, y: Text)
    requires PiecesOk(ps) && PiecesOk(qs) && PrintString(ps, x) == PrintString(qs, y)
    ensures ps == qs && x == y
  {
    StringParsed(ps, x);
    StringParsed(qs, y);
  }

  lemma {:induction false} ConsUnique(u: Unit, a: Text, v: Unit, b: Text)
    requires [u] + a == [v] + b
    ensures u == v && a == b
  {
    assert ([u] + a)[0] == u && ([v] + b)[0] == v;
    assert ([u] + a)[1..] == a && ([v] + b)[1..] == b;
  }

  lemma {:induction false} DelimitedStops(x: Text)
    requires Delimited(x)
    ensures NoDigit(x) && (x == [] || (x[0] != 69 && x[0] != 101 && x[0] != DOT))
  {
    if x != [] { DelimiterEndsNumbers(x); }
  }

  lemma {:induction false} SignUnique(s: Text, a: Text, t: Text, b: Text)
    requires (s == [] || s == [PLUS] || s == [MINUS]) && (t == [] || t == [PLUS] || t == [MINUS])
    requires a != [] && b != [] && Digit(a[0]) && Digit(b[0]) && s + a == t + b
    ensures s == t && a == b
  {
    assert (s + a)[0] == if s == [] then a[0] else s[0];
    assert (t + b)[0] == if t == [] then b[0] else t[0];
    if s == [] { assert s + a == a && t + b == b; } else { ConsUnique(s[0], a, t[0], b); }
  }

  lemma {:induction false} ExponentUnique(e: Exponent, x: Text, f: Exponent, y: Text)
    requires ExponentOk(e) && ExponentOk(f) && Delimited(x) && Delimited(y)
    requires PrintExponent(e, x) == PrintExponent(f, y)
    ensures e == f && x == y
  {
    DelimitedStops(x);
    DelimitedStops(y);
    if e.Exponent? && f.Exponent? {
      var a, b := e.digits + x, f.digits + y;
      ConsUnique(e.letter, e.sign + a, f.letter, f.sign + b);
      assert a[0] == e.digits[0] && b[0] == f.digits[0];
      SignUnique(e.sign, a, f.sign, b);
      DigitsUnique(e.digits, x, f.digits, y);
    }
  }

  function PrintFraction(f: Text, tail: Text): Text {
    if f == [] then tail else [DOT] + (f + tail)
  }

  lemma {:induction false} FractionUnique(f: Text, a: Text, g: Text, b: Text)
    requires (f == [] || Digits(f)) && (g == [] || Digits(g)) && PrintFraction(f, a) == PrintFraction(g, b)
    requires NoDigit(a) && NoDigit(b) && (a == [] || a[0] != DOT) && (b == [] || b[0] != DOT)
    ensures f == g && a == b
  {
    if f != [] && g != [] {
      ConsUnique(DOT, f + a, DOT, g + b);
      DigitsUnique(f, a, g, b);
    }
  }

  lemma {:induction false} NumberUnique(m: Number, x: Text, n: Number, y: Text)
    requires NumberOk(m) && NumberOk(n) && Delimited(x) && Delimited(y)
    requires PrintNumber(m, x) == PrintNumber(n, y)
    ensures m == n && x == y
  {
    hide PrintExponent, Delimited;
    var a, b := PrintExponent(m.exponent, x), PrintExponent(n.exponent, y);
    ExponentSkipped(m.exponent, x);
    ExponentSkipped(n.exponent, y);
    var c, d := PrintFraction(m.fraction, a), PrintFraction(n.fraction, b);
    var v, w := m.whole + c, n.whole + d;
    assert v[0] == m.whole[0] && w[0] == n.whole[0];
    var s, t := if m.minus then [MINUS] else [], if n.minus then [MINUS] else [];
    assert PrintNumber(m, x) == s + v && PrintNumber(n, y) == t + w;
    SignUnique(s, v, t, w);
    DigitsUnique(m.whole, c, n.whole, d);
    FractionUnique(m.fraction, a, n.fraction, b);
    ExponentUnique(m.exponent, x, n.exponent, y);
  }

  lemma {:induction false} LiteralUnique(i: nat, x: Text, j: nat, y: Text)
    requires i < 3 && j < 3 && Spelling(i) + x == Spelling(j) + y
    ensures i == j && x == y
  {
    assert (Spelling(i) + x)[0] == Spelling(i)[0] && (Spelling(j) + y)[0] == Spelling(j)[0];
    assert (Spelling(i) + x)[|Spelling(i)|..] == x && (Spelling(j) + y)[|Spelling(j)|..] == y;
  }

  /** Values with the same text have the same outermost form. */
  lemma {:induction false} SameForm(v: Value, x: Text, w: Value, y: Text)
    requires ValueOk(v) && ValueOk(w) && Print(v, x) == Print(w, y)
    ensures v.Str? <==> w.Str?
    ensures v.Num? <==> w.Num?
    ensures v.Literal? <==> w.Literal?
    ensures v.EmptyArray? <==> w.EmptyArray?
    ensures v.Array? <==> w.Array?
    ensures v.EmptyObject? <==> w.EmptyObject?
    ensures v.Object? <==> w.Object?
  {
    FirstUnit(v, x);
    FirstUnit(w, y);
    ScalarForm(v, x);
    ScalarForm(w, y);
    EmptyForm(v, x);
    EmptyForm(w, y);
  }

  lemma {:induction false} ScalarForm(v: Value, x: Text)
    requires ValueOk(v)
    ensures var t := Print(v, x); t != [] && (v.Num? <==> t[0] == MINUS || Digit(t[0]))
  {
    FirstUnit(v, x);
    match v
    case Num(n) =>
      var c := PrintFraction(n.fraction, PrintExponent(n.exponent, x));
      assert (n.whole + c)[0] == n.whole[0];
    case Literal(which) => assert Print(v, x)[0] == Spelling(which)[0];
    case _ =>
  }

  /** Past the opening bracket and whitespace, only an empty list closes at once. */
  lemma {:induction false} EmptyForm(v: Value, x: Text)
    requires ValueOk(v)
    ensures var t := Print(v, x);
            && t != []
            && (v.Array? || v.EmptyArray? ==> (v.EmptyArray? <==> Starts(SkipBlanks(t[1..]), CLOSE_ARRAY)))
            && (v.Object? || v.EmptyObject? ==> (v.EmptyObject? <==> Starts(SkipBlanks(t[1..]), CLOSE_OBJECT)))
  {
    FirstUnit(v, x);
    match v
    case EmptyArray(ws) =>
      assert Print(v, x)[1..] == ws + ([CLOSE_ARRAY] + x);
      BlanksSkipped(ws, [CLOSE_ARRAY] + x);
    case EmptyObject(ws) =>
      assert Print(v, x)[1..] == ws + ([CLOSE_OBJECT] + x);
      BlanksSkipped(ws, [CLOSE_OBJECT] + x);
    case Array(items) =>
      assert Print(v, x)[1..] == PrintItems(items, x);
      ItemsOpen(items, x);
    case Object(members) =>
      assert Print(v, x)[1..] == PrintMembers(members, x);
      MembersOpen(members, x);
    case _ =>
  }

  lemma {:induction false} ValueUnique(v: Value, x: Text, w: Value, y: Text)
    requires ValueOk(v) && ValueOk(w) && Delimited(x) && Delimited(y) && Print(v, x) == Print(w, y)
    ensures v == w && x == y
    decreases v, 0
  {
    SameForm(v, x, w, y);
    match v
    case Str(ps) => StringUnique(ps, x, w.pieces, y);
    case Num(n) => NumberUnique(n, x, w.number, y);
    case Literal(i) => LiteralUnique(i, x, w.which, y);
    case EmptyArray(ws) =>
      ConsUnique(OPEN_ARRAY, ws + ([CLOSE_ARRAY] + x), OPEN_ARRAY, w.inside + ([CLOSE_ARRAY] + y));
      BlanksUnique(ws, [CLOSE_ARRAY] + x, w.inside, [CLOSE_ARRAY] + y);
      ConsUnique(CLOSE_ARRAY, x, CLOSE_ARRAY, y);
    case EmptyObject(ws) =>
      ConsUnique(OPEN_OBJECT, ws + ([CLOSE_OBJECT] + x), OPEN_OBJECT, w.inside + ([CLOSE_OBJECT] + y));
      BlanksUnique(ws, [CLOSE_OBJECT] + x, w.inside, [CLOSE_OBJECT] + y);
      ConsUnique(CLOSE_OBJECT, x, CLOSE_OBJECT, y);
    case Array(items) =>
      ConsUnique(OPEN_ARRAY, PrintItems(items, x), OPEN_ARRAY, PrintItems(w.items, y));
      ItemsUnique(items, x, w.items, y);
    case Object(members) =>
      ConsUnique(OPEN_OBJECT, PrintMembers(members, x), OPEN_OBJECT, PrintMembers(w.members, y));
      MembersUnique(members, x, w.members, y);
  }

  lemma {:induction false} PaddedUnique(p: Padded, x: Text, q: Padded, y: Text)
    requires PaddedOk(p) && PaddedOk(q) && Delimited(x) && Delimited(y) && NoBlank(x) && NoBlank(y)
    requires PrintPadded(p, x) == PrintPadded(q, y)
    ensures p == q && x == y
    decreases p, 1
  {
    var a, b := p.after + x, q.after + y;
    assert Delimited(a) by { assert p.after != [] ==> Blank(a[0]); }
    assert Delimited(b) by { assert q.after != [] ==> Blank(b[0]); }
    FirstUnit(p.value, a);
    FirstUnit(q.value, b);
    BlanksUnique(p.before, Print(p.value, a), q.before, Print(q.value, b));
    ValueUnique(p.value, a, q.value, b);
    BlanksUnique(p.after, x, q.after, y);
  }

  lemma {:induction false} ItemsUnique(s: Items, x: Text, t: Items, y: Text)
    requires ItemsOk(s) && ItemsOk(t) && PrintItems(s, x) == PrintItems(t, y)
    ensures s == t && x == y
    decreases s, 2
  {
    var a, b := ItemsTail(s, x), ItemsTail(t, y);
    PaddedUnique(s.item, a, t.item, b);
    assert a[0] == b[0];
    if s.LastItem? {
      ConsUnique(CLOSE_ARRAY, x, CLOSE_ARRAY, y);
    } else {
      ConsUnique(COMMA, PrintItems(s.items, x), COMMA, PrintItems(t.items, y));
      ItemsUnique(s.items, x, t.items, y);
    }
  }

  lemma {:induction false} MembersUnique(s: Members, x: Text, t: Members, y: Text)
    requires MembersOk(s) && MembersOk(t) && PrintMembers(s, x) == PrintMembers(t, y)
    ensures s == t && x == y
    decreases s, 2
  {
    var a, b := MembersTail(s, x), MembersTail(t, y);
    var p, q := PrintPadded(s.value, a), PrintPadded(t.value, b);
    var j, k := s.key, t.key;
    BlanksUnique(j.before, PrintString(j.pieces, j.after + ([COLON] + p)), k.before,
        PrintString(k.pieces, k.after + ([COLON] + q)));
    StringUnique(j.pieces, j.after + ([COLON] + p), k.pieces, k.after + ([COLON] + q));
    BlanksUnique(j.after, [COLON] + p, k.after, [COLON] + q);
    ConsUnique(COLON, p, COLON, q);
    PaddedUnique(s.value, a, t.value, b);
    assert a[0] == b[0];
    if s.LastMember? {
      ConsUnique(CLOSE_OBJECT, x, CLOSE_OBJECT, y);
    } else {
      ConsUnique(COMMA, PrintMembers(s.members, x), COMMA, PrintMembers(t.members, y));
      MembersUnique(s.members, x, t.members, y);
    }
  }

  /** Two JSON texts are equal only if every choice in them is. */
  lemma {:induction false} OneReading(p: Padded, q: Padded)
    requires PaddedOk(p) && PaddedOk(q) && PrintPadded(p, []) == PrintPadded(q, [])
    ensures p == q
  {
    PaddedUnique(p, [], q, []);
  }
}

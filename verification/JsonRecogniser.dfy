/** What the strict recogniser accepts: soundness, the main equivalence, and the loops that compute it. */
module JsonRecogniser {
  import opened Prelude
  import opened JsonText
  import opened JsonParser

  // ----- whatever is read was printed from some tree -----

  lemma {:induction false} BlanksTaken(t: Text) returns (ws: Text)
    ensures Blanks(ws) && t == ws + SkipBlanks(t)
  {
    ws := [];
    if t != [] && Blank(t[0]) {
      ws := BlanksTaken(t[1..]);
      ws := [t[0]] + ws;
    }
  }

  lemma {:induction false} DigitsTaken(t: Text) returns (ds: Text)
    ensures (forall i :: 0 <= i < |ds| ==> Digit(ds[i])) && t == ds + SkipDigits(t)
    ensures t != [] && Digit(t[0]) ==> Digits(ds) && ds[0] == t[0]
  {
    ds := [];
    if t != [] && Digit(t[0]) {
      ds := DigitsTaken(t[1..]);
      assert t == [t[0]] + t[1..];
      ds := [t[0]] + ds;
    }
  }

  lemma {:induction false} PiecesTaken(t: Text)
    requires ScanString(t).Some?
    ensures var (ps, rest) := ScanString(t).value; PiecesOk(ps) && t == PrintPieces(ps, [QUOTE] + rest)
  {
    if t[0] == QUOTE {
    } else if t[0] != BACKSLASH {
      PiecesTaken(t[1..]);
    } else if t[1] == LOWER_U {
      PiecesTaken(t[6..]);
      assert t == [BACKSLASH, LOWER_U, t[2], t[3], t[4], t[5]] + t[6..];
    } else {
      PiecesTaken(t[2..]);
      assert t == [BACKSLASH, t[1]] + t[2..];
    }
  }

  lemma {:induction false} StringTaken(t: Text)
    requires ParseString(t).Some?
    ensures var (ps, rest) := ParseString(t).value; PiecesOk(ps) && t == PrintString(ps, rest)
  {
    PiecesTaken(t[1..]);
  }

  lemma {:induction false} ExponentTaken(t: Text) returns (e: Exponent)
    ensures ExponentOk(e) && t == PrintExponent(e, SkipExponent(t))
  {
    e := NoExponent;
    if t != [] && (t[0] == 69 || t[0] == 101) {
      var signed := |t| >= 2 && (t[1] == PLUS || t[1] == MINUS);
      var after := if signed then t[2..] else t[1..];
      if after != [] && Digit(after[0]) {
        var ds := DigitsTaken(after);
        e := Exponent(t[0], if signed then [t[1]] else [], ds);
        assert t == [t[0]] + (e.sign + after);
      }
    }
  }

  lemma {:induction false} FractionTaken(t: Text) returns (f: Text)
    ensures f == [] || Digits(f)
    ensures t == if f == [] then SkipFraction(t) else [DOT] + (f + SkipFraction(t))
  {
    f := [];
    if |t| >= 2 && t[0] == DOT && Digit(t[1]) {
      f := DigitsTaken(t[1..]);
      assert t == [DOT] + t[1..];
    }
  }

  lemma {:induction false} WholeTaken(a: Text) returns (whole: Text)
    requires a != [] && Digit(a[0])
    ensures Digits(whole) && (whole[0] == ZERO ==> |whole| == 1)
    ensures a == whole + if a[0] == ZERO then a[1..] else SkipDigits(a[1..])
  {
    var more := [];
    if a[0] != ZERO { more := DigitsTaken(a[1..]); }
    whole := [a[0]] + more;
    assert a == [a[0]] + a[1..];
  }

  lemma {:induction false} NumberTaken(t: Text) returns (n: Number)
    requires ParseNumber(t).Some?
    ensures NumberOk(n) && t == PrintNumber(n, ParseNumber(t).value)
  {
    var minus := Starts(t, MINUS);
    var a := if minus then t[1..] else t;
    var whole := WholeTaken(a);
    var b := if a[0] == ZERO then a[1..] else SkipDigits(a[1..]);
    hide SkipFraction, SkipExponent, PrintExponent, SkipDigits, Digits, Digit, ExponentOk;
    var f := FractionTaken(b);
    var e := ExponentTaken(SkipFraction(b));
    n := Number(minus, whole, f, e);
    assert t == (if minus then [MINUS] else []) + a;
  }

  lemma {:induction false} LiteralTaken(t: Text, which: nat)
    requires which < 3 && ParseLiteral(t, which).Some?
    ensures t == Print(Literal(which), ParseLiteral(t, which).value)
  {
  }

  lemma {:induction false} ScalarTaken(t: Text) returns (v: Value)
    requires ParseScalar(t).Some?
    ensures ValueOk(v) && DistinctKeys(v) && t == Print(v, ParseScalar(t).value)
  {
    hide ParseNumber, PrintNumber, NumberOk, ParseLiteral, Spelling;
    if which :|
      0 <= which < 3 && ParseLiteral(t, which).Some? && forall i :: 0 <= i < which ==> ParseLiteral(t, i).None?
    {
      LiteralTaken(t, which);
      v := Literal(which);
    } else {
      assert ParseLiteral(t, 0).None? && ParseLiteral(t, 1).None? && ParseLiteral(t, 2).None?;
      var n := NumberTaken(t);
      v := Num(n);
    }
  }

  lemma {:induction false} ObjectUnfolds(u: Text)
    requires Starts(u, OPEN_OBJECT)
    ensures var w := SkipBlanks(u[1..]);
            && u == [OPEN_OBJECT] + u[1..]
            && if Starts(w, CLOSE_OBJECT) then w == [CLOSE_OBJECT] + w[1..] && ParseValue(u) == Some(w[1..])
               else ParseValue(u) == ParseMembers(u[1..], {})
  {
    BlanksFirst(u[1..], {});
  }

  lemma {:induction false} ObjectPrints(ms: Members, rest: Text)
    requires MembersOk(ms) && MembersDistinct(ms) && NoRepeats(Keys(ms))
    ensures ValueOk(Object(ms)) && DistinctKeys(Object(ms))
    ensures Print(Object(ms), rest) == [OPEN_OBJECT] + PrintMembers(ms, rest)
  {
  }

  lemma {:induction false} ObjectTaken(u: Text) returns (v: Value)
    requires Starts(u, OPEN_OBJECT) && ParseValue(u).Some?
    ensures ValueOk(v) && DistinctKeys(v) && u == Print(v, ParseValue(u).value)
    decreases |u|, 4
  {
    var w := SkipBlanks(u[1..]);
    ObjectUnfolds(u);
    if Starts(w, CLOSE_OBJECT) {
      hide ParseValue, SkipBlanks;
      var inside := BlanksTaken(u[1..]);
      v := EmptyObject(inside);
    } else {
      hide ParseValue, SkipBlanks, ParseMembers, PrintMembers, MembersOk, MembersDistinct, Keys, NoRepeats;
      var ms := MembersTaken(u[1..], {});
      v := Object(ms);
      ObjectPrints(ms, ParseValue(u).value);
      hide Print, ValueOk, DistinctKeys;
    }
  }

  lemma {:induction false} ArrayUnfolds(u: Text)
    requires Starts(u, OPEN_ARRAY)
    ensures var w := SkipBlanks(u[1..]);
            && u == [OPEN_ARRAY] + u[1..]
            && if Starts(w, CLOSE_ARRAY) then w == [CLOSE_ARRAY] + w[1..] && ParseValue(u) == Some(w[1..])
               else ParseValue(u) == ParseItems(u[1..])
  {
    BlanksFirst(u[1..], {});
  }

  lemma {:induction false} ArrayTaken(u: Text) returns (v: Value)
    requires Starts(u, OPEN_ARRAY) && ParseValue(u).Some?
    ensures ValueOk(v) && DistinctKeys(v) && u == Print(v, ParseValue(u).value)
    decreases |u|, 4
  {
    var w := SkipBlanks(u[1..]);
    ArrayUnfolds(u);
    if Starts(w, CLOSE_ARRAY) {
      hide ParseValue, SkipBlanks;
      var inside := BlanksTaken(u[1..]);
      v := EmptyArray(inside);
    } else {
      hide ParseValue, SkipBlanks, ParseItems, PrintItems, ItemsOk, ItemsDistinct, Keys, NoRepeats;
      var items := ItemsTaken(u[1..]);
      v := Array(items);
    }
  }

  /** An accepted value is the text of some tree without repeated keys, after some whitespace. */
  lemma {:induction false} ValueTaken(t: Text) returns (before: Text, v: Value)
    requires ParseValue(t).Some?
    ensures Blanks(before) && ValueOk(v) && DistinctKeys(v) && t == before + Print(v, ParseValue(t).value)
    decreases |t|, 5
  {
    before := BlanksTaken(t);
    var u := SkipBlanks(t);
    SkipTwice(t);
    if Starts(u, OPEN_OBJECT) {
      v := ObjectTaken(u);
    } else if Starts(u, OPEN_ARRAY) {
      v := ArrayTaken(u);
    } else if Starts(u, QUOTE) {
      StringTaken(u);
      v := Str(ParseString(u).value.0);
    } else {
      v := ScalarTaken(u);
    }
  }

  lemma {:induction false} PaddedTaken(t: Text) returns (p: Padded)
    requires ParseValue(t).Some?
    ensures PaddedOk(p) && DistinctKeys(p.value) && t == PrintPadded(p, SkipBlanks(ParseValue(t).value))
    decreases |t|, 6
  {
    var before, v := ValueTaken(t);
    var after := BlanksTaken(ParseValue(t).value);
    p := Padded(before, v, after);
  }

  lemma {:induction false} ItemsTaken(t: Text) returns (items: Items)
    requires ParseItems(t).Some?
    ensures ItemsOk(items) && ItemsDistinct(items) && t == PrintItems(items, ParseItems(t).value)
    decreases |t|, 7
  {
    var p := PaddedTaken(t);
    var w := SkipBlanks(ParseValue(t).value);
    assert w == [w[0]] + w[1..];
    if Starts(w, CLOSE_ARRAY) {
      items := LastItem(p);
    } else {
      var more := ItemsTaken(w[1..]);
      items := MoreItems(p, more);
    }
  }

  lemma {:induction false} MembersUnfolds(t: Text, keys: set<seq<int>>)
    requires ParseMembers(t, keys).Some?
    ensures var s := ParseString(SkipBlanks(t));
            && s.Some? && Decode(s.value.0) !in keys
            && var c := SkipBlanks(s.value.1);
            && Starts(c, COLON) && ParseValue(c[1..]).Some?
            && var w := SkipBlanks(ParseValue(c[1..]).value);
            && w != [] && w == [w[0]] + w[1..]
            && if w[0] == CLOSE_OBJECT then ParseMembers(t, keys) == Some(w[1..])
               else w[0] == COMMA && ParseMembers(t, keys) == ParseMembers(w[1..], keys + {Decode(s.value.0)})
  {
  }

  lemma {:induction false} MembersPrint(ms: Members, rest: Text)
    ensures var colon := [COLON] + PrintPadded(ms.value, MembersTail(ms, rest));
            PrintMembers(ms, rest) == ms.key.before + PrintString(ms.key.pieces, ms.key.after + colon)
  {
  }

  lemma {:induction false} MembersTaken(t: Text, keys: set<seq<int>>) returns (ms: Members)
    requires ParseMembers(t, keys).Some?
    ensures MembersOk(ms) && MembersDistinct(ms) && NoRepeats(Keys(ms)) && forall k :: k in Keys(ms) ==> k !in keys
    ensures t == PrintMembers(ms, ParseMembers(t, keys).value)
    decreases |t|, 7
  {
    MembersUnfolds(t, keys);
    hide ParseMembers, ParseValue, PrintMembers, PrintPadded, PrintString, ParseString, SkipBlanks;
    hide PaddedOk, DistinctKeys, Decode, NoRepeats, Starts;
    var before := BlanksTaken(t);
    var s := ParseString(SkipBlanks(t)).value;
    var w := SkipBlanks(ParseValue(SkipBlanks(s.1)[1..]).value);
    var after, p := KeyTaken(t);
    var key := Decode(s.0);
    if w[0] == CLOSE_OBJECT {
      ms := LastMember(Key(before, s.0, after), p);
      KeysStep(key, [], keys);
    } else {
      var more := MembersTaken(w[1..], keys + {key});
      ms := MoreMembers(Key(before, s.0, after), p, more);
      KeysStep(key, Keys(more), keys);
    }
    NoRepeatsNone();
    MembersPrint(ms, ParseMembers(t, keys).value);
  }

  lemma {:induction false} NoRepeatsNone()
    ensures NoRepeats([])
  {
  }

  /** The key and value at the front of a member list. */
  lemma {:induction false} KeyTaken(t: Text) returns (after: Text, p: Padded)
    requires ParseString(SkipBlanks(t)).Some?
    requires var c := SkipBlanks(ParseString(SkipBlanks(t)).value.1); Starts(c, COLON) && ParseValue(c[1..]).Some?
    ensures var s := ParseString(SkipBlanks(t)).value;
            var w := SkipBlanks(ParseValue(SkipBlanks(s.1)[1..]).value);
            && PiecesOk(s.0) && Blanks(after) && PaddedOk(p) && DistinctKeys(p.value)
            && SkipBlanks(t) == PrintString(s.0, after + ([COLON] + PrintPadded(p, w)))
    decreases |t|, 6
  {
    hide ParseValue, PrintPadded, PaddedOk, DistinctKeys;
    var s := ParseString(SkipBlanks(t)).value;
    StringTaken(SkipBlanks(t));
    after := BlanksTaken(s.1);
    var c := SkipBlanks(s.1);
    assert c == [COLON] + c[1..];
    p := PaddedTaken(c[1..]);
  }

  /** The text is one JSON value in which no object repeats a key. */
  ghost predicate StrictJson(t: Text) {
    exists p :: PaddedOk(p) && DistinctKeys(p.value) && t == PrintPadded(p, [])
  }

  /** Main theorem: the recogniser accepts exactly the JSON texts without repeated keys. */
  lemma {:induction false} AcceptsStrictJson(raw: Text)
    ensures Accepts(raw) <==> StrictJson(WithoutMark(raw))
  {
    hide PrintPadded, PaddedOk, DistinctKeys, SkipBlanks, ParseValue;
    var t := WithoutMark(raw);
    if Accepts(raw) {
      var p := PaddedTaken(t);
    }
    if StrictJson(t) {
      var p :| PaddedOk(p) && DistinctKeys(p.value) && t == PrintPadded(p, []);
      TextRead(p);
    }
  }

  lemma {:induction false} TextRead(p: Padded)
    requires PaddedOk(p)
    ensures var v := ParseValue(PrintPadded(p, []));
            if DistinctKeys(p.value) then v.Some? && SkipBlanks(v.value) == [] else v.None?
  {
    assert Delimited(p.after + []) by { assert p.after != [] ==> Blank((p.after + [])[0]); }
    ValueParsed(p.before, p.value, p.after + []);
    BlanksSkipped(p.after, []);
  }

  /** Any text that spells an object with one decoded key twice, at any depth, is refused. */
  lemma {:induction false} RepeatedKeyRefused(raw: Text, p: Padded)
    requires PaddedOk(p) && WithoutMark(raw) == PrintPadded(p, []) && !DistinctKeys(p.value)
    ensures !Accepts(raw)
  {
    TextRead(p);
  }
}

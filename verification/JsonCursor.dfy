/** The recogniser as the hook runs it: one cursor moving over the source text. */
module JsonCursor {
  import opened Prelude
  import opened JsonText
  import opened JsonParser
  import opened JsonRecogniser

  /** The text from a cursor on. */
  function From(source: Text, i: nat): (t: Text)
    requires i <= |source|
    ensures |t| == |source| - i
  {
    source[i..]
  }

  lemma {:induction false} FromStep(source: Text, i: nat)
    requires i <= |source|
    ensures var t := From(source, i);
            if i == |source| then t == [] else t != [] && t[0] == source[i] && t[1..] == From(source, i + 1)
  {
  }

  lemma {:induction false} FromSkip(source: Text, i: nat, k: nat)
    requires i <= |source| && k <= |From(source, i)|
    ensures i + k <= |source| && From(source, i)[k..] == From(source, i + k)
  {
  }

  /** The cursor stands where the functional reader leaves off. */
  ghost predicate At(source: Text, ok: bool, cursor: nat, expected: Option<Text>) {
    && (ok <==> expected.Some?)
    && (ok ==> cursor <= |source| && From(source, cursor) == expected.value)
  }

  method SkipWhitespace(source: Text, start: nat) returns (cursor: nat)
    requires start <= |source|
    ensures start <= cursor <= |source| && From(source, cursor) == SkipBlanks(From(source, start))
  {
    cursor := start;
    while cursor < |source| && Blank(source[cursor])
      invariant start <= cursor <= |source|
      invariant SkipBlanks(From(source, cursor)) == SkipBlanks(From(source, start))
    {
      FromStep(source, cursor);
      cursor := cursor + 1;
    }
    FromStep(source, cursor);
  }

  function PrefixedAll(ps: seq<Piece>, r: Option<(seq<Piece>, Text)>): Option<(seq<Piece>, Text)> {
    if r.None? then None else Some((ps + r.value.0, r.value.1))
  }

  lemma {:induction false} PrefixedAllNone(r: Option<(seq<Piece>, Text)>)
    ensures PrefixedAll([], r) == r
  {
    if r.Some? { assert [] + r.value.0 == r.value.0; }
  }

  lemma {:induction false} PrefixedAllMore(ps: seq<Piece>, p: Piece, r: Option<(seq<Piece>, Text)>)
    ensures PrefixedAll(ps, Prefixed(p, r)) == PrefixedAll(ps + [p], r)
  {
    if r.Some? { assert ps + ([p] + r.value.0) == (ps + [p]) + r.value.0; }
  }

  lemma {:induction false} DecodeAppend(ps: seq<Piece>, p: Piece)
    ensures Decode(ps + [p]) == Decode(ps) + Decode([p])
  {
    if ps == [] {
      assert ps + [p] == [p];
    } else {
      assert (ps + [p])[1..] == ps[1..] + [p];
      DecodeAppend(ps[1..], p);
    }
  }

  /** The piece one step of the string loop passes over, and how far it moves. */
  function StringStep(t: Text): (r: Option<(Piece, nat)>)
    requires t != []
    ensures r.Some? ==> 0 < r.value.1 <= |t|
  {
    if t[0] == BACKSLASH then
      if |t| < 2 then None
      else if t[1] == LOWER_U then
        if |t| < 6 || !(HexDigit(t[2]) && HexDigit(t[3]) && HexDigit(t[4]) && HexDigit(t[5])) then None
        else Some((Hex(t[2], t[3], t[4], t[5]), 6))
      else if ShortEscape(t[1]) then Some((Short(t[1]), 2))
      else None
    else if t[0] < 32 then None
    else Some((Plain(t[0]), 1))
  }

  lemma {:induction false} ScanStep(ps: seq<Piece>, t: Text)
    ensures PrefixedAll(ps, ScanString(t)) ==
      if t == [] then None
      else if t[0] == QUOTE then Some((ps, t[1..]))
      else
        var step := StringStep(t);
        if step.None? then None else PrefixedAll(ps + [step.value.0], ScanString(t[step.value.1..]))
  {
    if t != [] && t[0] == QUOTE { assert ps + [] == ps; }
    if t != [] && t[0] != QUOTE && StringStep(t).Some? {
      var step := StringStep(t).value;
      PrefixedAllMore(ps, step.0, ScanString(t[step.1..]));
    }
  }

  /** One round of the string loop. */
  lemma {:induction false} StringMoves(source: Text, cursor: nat, pieces: seq<Piece>)
    requires cursor <= |source|
    ensures PrefixedAll(pieces, ScanString(From(source, cursor))) ==
      if cursor == |source| then None
      else if source[cursor] == QUOTE then Some((pieces, From(source, cursor + 1)))
      else
        var step := StringStep(From(source, cursor));
        if step.None? then None
        else PrefixedAll(pieces + [step.value.0], ScanString(From(source, cursor + step.value.1)))
  {
    hide From, ScanString, StringStep, PrefixedAll;
    var rest := From(source, cursor);
    FromStep(source, cursor);
    ScanStep(pieces, rest);
    if cursor < |source| && source[cursor] != QUOTE && StringStep(rest).Some? {
      FromSkip(source, cursor, StringStep(rest).value.1);
    }
  }

  /** The loop of `parseString`, from just after the opening quote. */
  method ReadPieces(source: Text, start: nat) returns (ok: bool, key: seq<int>, cursor: nat)
    requires start <= |source|
    ensures var r := ScanString(From(source, start));
            && (ok <==> r.Some?)
            && (ok ==> start <= cursor <= |source| && From(source, cursor) == r.value.1 && key == Decode(r.value.0))
  {
    ok, key, cursor := false, Decode([]), start;
    PrefixedAllNone(ScanString(From(source, start)));
    hide *;
    ghost var pieces: seq<Piece> := [];
    while cursor < |source| && !ok
      invariant start <= cursor <= |source|
      invariant key == Decode(pieces)
      invariant !ok ==> ScanString(From(source, start)) == PrefixedAll(pieces, ScanString(From(source, cursor)))
      invariant ok ==> ScanString(From(source, start)) == Some((pieces, From(source, cursor)))
      decreases |source| - cursor
    {
      StringMoves(source, cursor, pieces);
      if source[cursor] == QUOTE {
        ok, cursor := true, cursor + 1;
      } else {
        var step := StringStep(From(source, cursor));
        if step.None? { return; }
        DecodeAppend(pieces, step.value.0);
        key := key + Decode([step.value.0]);
        pieces := pieces + [step.value.0];
        cursor := cursor + step.value.1;
      }
    }
    if !ok { StringMoves(source, cursor, pieces); }
  }

  /** `parseString`: the cursor after the closing quote, and the code units the string denotes. */
  method ReadString(source: Text, start: nat) returns (ok: bool, key: seq<int>, cursor: nat)
    requires start <= |source|
    ensures var r := ParseString(From(source, start));
            && (ok <==> r.Some?)
            && (ok ==> start < cursor <= |source| && From(source, cursor) == r.value.1 && key == Decode(r.value.0))
  {
    ok, key, cursor := false, [], start;
    FromStep(source, start);
    hide From, ScanString, Decode;
    if start < |source| && source[start] == QUOTE {
      ok, key, cursor := ReadPieces(source, start + 1);
    }
  }

  predicate Ends(t: Text, rest: Text) {
    |rest| <= |t| && t[|t| - |rest|..] == rest
  }

  lemma {:induction false} EndsAfter(a: Text, t: Text, rest: Text)
    requires Ends(t, rest)
    ensures Ends(a + t, rest)
  {
    assert (a + t)[|a| + |t| - |rest|..] == t[|t| - |rest|..];
  }

  lemma {:induction false} NumberEnds(n: Number, rest: Text)
    ensures Ends(PrintNumber(n, rest), rest)
  {
    var e := n.exponent;
    if e.Exponent? {
      EndsAfter(e.digits, rest, rest);
      EndsAfter(e.sign, e.digits + rest, rest);
      EndsAfter([e.letter], e.sign + (e.digits + rest), rest);
    }
    var tail := PrintExponent(e, rest);
    hide Ends, PrintExponent;
    EndsAfter(n.fraction, tail, rest);
    EndsAfter([DOT], n.fraction + tail, rest);
    var fraction := if n.fraction == [] then tail else [DOT] + (n.fraction + tail);
    EndsAfter(n.whole, fraction, rest);
    EndsAfter(if n.minus then [MINUS] else [], n.whole + fraction, rest);
  }

  /** Literals and numbers: `startsWith`, then the anchored regular expression. */
  method ReadScalar(source: Text, start: nat) returns (ok: bool, cursor: nat)
    requires start <= |source|
    ensures At(source, ok, cursor, ParseScalar(From(source, start)))
  {
    var which, rest := 0, From(source, start);
    while which < 3
      invariant which <= 3
      invariant forall i :: 0 <= i < which ==> ParseLiteral(rest, i).None?
    {
      if Spelling(which) <= rest {
        LiteralFound(source, start, which);
        return true, start + |Spelling(which)|;
      }
      which := which + 1;
    }
    assert ParseScalar(rest) == ParseNumber(rest);
    var number := ParseNumber(rest);
    if number.None? { return false, start; }
    NumberFound(source, start);
    return true, |source| - |number.value|;
  }

  lemma {:induction false} NumberFound(source: Text, start: nat)
    requires start <= |source| && ParseNumber(From(source, start)).Some?
    ensures At(source, true, |source| - |ParseNumber(From(source, start)).value|, ParseNumber(From(source, start)))
  {
    var rest := From(source, start);
    var n := NumberTaken(rest);
    hide ParseNumber, PrintNumber;
    var number := ParseNumber(rest).value;
    NumberEnds(n, number);
    FromSkip(source, start, |rest| - |number|);
  }

  lemma {:induction false} LiteralFound(source: Text, start: nat, which: nat)
    requires start <= |source| && which < 3 && Spelling(which) <= From(source, start)
    requires forall i :: 0 <= i < which ==> ParseLiteral(From(source, start), i).None?
    ensures At(source, true, start + |Spelling(which)|, ParseScalar(From(source, start)))
  {
    FromSkip(source, start, |Spelling(which)|);
  }

  /** `parseValue`. */
  method ReadValue(source: Text, start: nat) returns (ok: bool, cursor: nat)
    requires start <= |source|
    ensures At(source, ok, cursor, ParseValue(From(source, start)))
    ensures ok ==> start < cursor
    decreases |source| - start, 1
  {
    hide From;
    cursor := SkipWhitespace(source, start);
    var first := cursor;
    FromStep(source, first);
    if first < |source| && (source[first] == OPEN_OBJECT || source[first] == OPEN_ARRAY) {
      cursor := SkipWhitespace(source, first + 1);
      ValueUnfolds(source, start, first, cursor);
      FromStep(source, cursor);
      hide ParseValue, ParseMembers, ParseItems, SkipBlanks;
      if source[first] == OPEN_OBJECT {
        if cursor < |source| && source[cursor] == CLOSE_OBJECT { return true, cursor + 1; }
        ok, cursor := ReadMembers(source, cursor);
      } else {
        if cursor < |source| && source[cursor] == CLOSE_ARRAY { return true, cursor + 1; }
        ok, cursor := ReadItems(source, cursor);
      }
    } else if first < |source| && source[first] == QUOTE {
      hide ParseString;
      var key;
      ok, key, cursor := ReadString(source, first);
    } else {
      hide ParseScalar;
      ok, cursor := ReadScalar(source, first);
    }
  }

  lemma {:induction false} ValueUnfolds(source: Text, start: nat, first: nat, inside: nat)
    requires start <= first < inside <= |source| && From(source, first) == SkipBlanks(From(source, start))
    requires From(source, inside) == SkipBlanks(From(source, first + 1))
    ensures var w := From(source, inside);
            && (source[first] == OPEN_OBJECT ==>
                ParseValue(From(source, start))
                == if Starts(w, CLOSE_OBJECT) then Some(From(source, inside + 1)) else ParseMembers(w, {}))
            && (source[first] == OPEN_ARRAY ==>
                ParseValue(From(source, start))
                == if Starts(w, CLOSE_ARRAY) then Some(From(source, inside + 1)) else ParseItems(w))
  {
    FromStep(source, first);
    FromStep(source, inside);
  }

  /** The loop of `parseValue` over the values of an array. */
  method ReadItems(source: Text, start: nat) returns (ok: bool, cursor: nat)
    requires start <= |source|
    ensures At(source, ok, cursor, ParseItems(From(source, start)))
    ensures ok ==> start < cursor
    decreases |source| - start, 2
  {
    cursor := start;
    while cursor < |source|
      invariant start <= cursor <= |source|
      invariant ParseItems(From(source, cursor)) == ParseItems(From(source, start))
      decreases |source| - cursor
    {
      ItemsStep(From(source, cursor));
      hide From, ParseValue, ParseItems, SkipBlanks;
      ok, cursor := ReadValue(source, cursor);
      if !ok { return false, cursor; }
      cursor := SkipWhitespace(source, cursor);
      FromStep(source, cursor);
      if cursor == |source| { return false, cursor; }
      if source[cursor] == CLOSE_ARRAY { return true, cursor + 1; }
      if source[cursor] != COMMA { return false, cursor; }
      cursor := cursor + 1;
    }
    ok := false;
  }

  /** One round of the item loop, without the reader's own definitions. */
  lemma {:induction false} ItemsStep(t: Text)
    ensures ParseItems(t) ==
            if ParseValue(t).None? then None
            else
              var w := SkipBlanks(ParseValue(t).value);
              if w == [] then None
              else if w[0] == CLOSE_ARRAY then Some(w[1..])
              else if w[0] == COMMA then ParseItems(w[1..])
              else None
  {
  }

  /** The key at the front of a member list, and what follows its colon. */
  function KeyAt(t: Text): (r: Option<(seq<int>, Text)>)
    ensures r.Some? ==> |r.value.1| < |t|
  {
    var s := ParseString(SkipBlanks(t));
    if s.None? then None
    else
      var c := SkipBlanks(s.value.1);
      if !Starts(c, COLON) then None else Some((Decode(s.value.0), c[1..]))
  }

  /** One round of the member loop, without the reader's own definitions. */
  lemma {:induction false} MembersStep(t: Text, keys: set<seq<int>>)
    ensures ParseMembers(t, keys) ==
            if KeyAt(t).None? || KeyAt(t).value.0 in keys || ParseValue(KeyAt(t).value.1).None? then None
            else
              var w := SkipBlanks(ParseValue(KeyAt(t).value.1).value);
              if w == [] then None
              else if w[0] == CLOSE_OBJECT then Some(w[1..])
              else if w[0] == COMMA then ParseMembers(w[1..], keys + {KeyAt(t).value.0})
              else None
  {
  }

  method ReadKey(source: Text, start: nat) returns (ok: bool, key: seq<int>, cursor: nat)
    requires start <= |source|
    ensures var r := KeyAt(From(source, start));
            && (ok <==> r.Some?)
            && (ok ==> start < cursor <= |source| && key == r.value.0 && From(source, cursor) == r.value.1)
  {
    hide From, ParseString, SkipBlanks, Decode;
    cursor := SkipWhitespace(source, start);
    ok, key, cursor := ReadString(source, cursor);
    if !ok { return; }
    cursor := SkipWhitespace(source, cursor);
    FromStep(source, cursor);
    ok := cursor < |source| && source[cursor] == COLON;
    cursor := cursor + 1;
  }

  /** The loop of `parseValue` over the members of an object, with the set of keys seen. */
  method ReadMembers(source: Text, start: nat) returns (ok: bool, cursor: nat)
    requires start <= |source|
    ensures At(source, ok, cursor, ParseMembers(From(source, start), {}))
    ensures ok ==> start < cursor
    decreases |source| - start, 2
  {
    hide From, ParseMembers, ParseValue, SkipBlanks, KeyAt;
    cursor := start;
    var keys: set<seq<int>> := {};
    while cursor < |source|
      invariant start <= cursor <= |source|
      invariant ParseMembers(From(source, cursor), keys) == ParseMembers(From(source, start), {})
      decreases |source| - cursor
    {
      MembersStep(From(source, cursor), keys);
      var key;
      ok, key, cursor := ReadKey(source, cursor);
      if !ok || key in keys { return false, cursor; }
      ok, cursor := ReadValue(source, cursor);
      if !ok { return false, cursor; }
      cursor := SkipWhitespace(source, cursor);
      FromStep(source, cursor);
      if cursor == |source| { return false, cursor; }
      if source[cursor] == CLOSE_OBJECT { return true, cursor + 1; }
      if source[cursor] != COMMA { return false, cursor; }
      keys := keys + {key};
      cursor := cursor + 1;
    }
    ok := false;
    MembersEnd(source, cursor, keys);
  }

  lemma {:induction false} MembersEnd(source: Text, cursor: nat, keys: set<seq<int>>)
    requires cursor == |source|
    ensures ParseMembers(From(source, cursor), keys).None?
  {
  }

  /** `parseJsonWithoutDuplicateKeys` accepts exactly the JSON texts in which no object repeats a key. */
  method Recognise(raw: Text) returns (ok: bool)
    ensures ok <==> StrictJson(WithoutMark(raw))
  {
    AcceptsStrictJson(raw);
    hide ParseValue, StrictJson;
    var source := if raw != [] && raw[0] == BYTE_ORDER_MARK then raw[1..] else raw;
    assert From(source, 0) == source;
    var cursor;
    ok, cursor := ReadValue(source, 0);
    if ok {
      cursor := SkipWhitespace(source, cursor);
      FromStep(source, cursor);
      ok := cursor == |source|;
    }
  }
}

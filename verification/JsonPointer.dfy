/** JSON Pointer (RFC 6901) as the evidence reader resolves it. */
module JsonPointer {
  import opened Prelude
  import opened JsonText
  import opened CanonicalJson

  const TILDE: Unit := 126
  const SLASH: Unit := 47
  const ONE: Unit := 49

  /** Why a pointer does not resolve, in the order the reader checks. */
  datatype Fault = NoLeadingSlash | BadEscape | NoSuchKey | BadIndex | NotANumber | IndexTooLarge | ThroughScalar

  type Resolved = Result<Data, Fault>

  // ----- the string operations -----

  /** `t.replace(ab, other)`: non-overlapping, from the left. */
  function Replace(t: Text, a: Unit, b: Unit, other: Text): Text {
    if t == [] then []
    else if |t| >= 2 && t[0] == a && t[1] == b then other + Replace(t[2..], a, b, other)
    else [t[0]] + Replace(t[1..], a, b, other)
  }

  /** `t.split("/")`. */
  function SplitSlash(t: Text): (parts: seq<Text>)
    ensures parts != []
  {
    if t == [] then [[]]
    else if t[0] == SLASH then [[]] + SplitSlash(t[1..])
    else
      var rest := SplitSlash(t[1..]);
      [[t[0]] + rest[0]] + rest[1..]
  }

  function Unescape(raw: Text): Text {
    Replace(Replace(raw, TILDE, ONE, [SLASH]), TILDE, ZERO, [TILDE])
  }

  /** The reader's escape test: remove `~0`, remove `~1`, look for a tilde. */
  predicate EscapesPass(raw: Text) {
    TILDE !in Replace(Replace(raw, TILDE, ZERO, []), TILDE, ONE, [])
  }

  // ----- index tokens -----

  /** A character as `str.isdigit` and `int` see it: superscripts, say, are digits that `int` refuses. */
  datatype DigitKind = NoDigit | OtherDigit | Decimal(value: nat)

  /** The Unicode database, of which only the ASCII digits matter here. */
  type DigitTable = Unit -> DigitKind

  ghost predicate AsciiDigits(table: DigitTable) {
    forall c: Unit :: ZERO <= c <= 57 ==> table(c) == Decimal(c - ZERO)
  }

  /** `isdigit`, and no leading ASCII zero. */
  predicate IndexToken(table: DigitTable, t: Text) {
    && |t| > 0 && (forall i :: 0 <= i < |t| ==> table(t[i]) != NoDigit)
    && (t[0] == ZERO ==> |t| == 1)
  }

  predicate Readable(table: DigitTable, t: Text) {
    forall i :: 0 <= i < |t| ==> table(t[i]).Decimal?
  }

  /** `int(t)`. */
  function IndexValue(table: DigitTable, t: Text): nat
    requires Readable(table, t)
  {
    if t == [] then 0 else 10 * IndexValue(table, t[..|t| - 1]) + table(t[|t| - 1]).value
  }

  lemma {:induction false} AsciiValue(table: DigitTable, t: Text)
    requires AsciiDigits(table) && forall i :: 0 <= i < |t| ==> Digit(t[i])
    ensures Readable(table, t) && IndexValue(table, t) == DigitsValue(t)
  {
    if t != [] { AsciiValue(table, t[..|t| - 1]); }
  }

  function Step(table: DigitTable, current: Data, token: Text): Resolved {
    if current.Dict? then
      if token in current.fields then Ok(current.fields[token]) else Err(NoSuchKey)
    else if current.List? then
      if !IndexToken(table, token) then Err(BadIndex)
      else if !Readable(table, token) then Err(NotANumber)
      else if IndexValue(table, token) >= |current.items| then Err(IndexTooLarge)
      else Ok(current.items[IndexValue(table, token)])
    else Err(ThroughScalar)
  }

  /** Follow unescaped tokens from a value. */
  function Walk(table: DigitTable, current: Data, tokens: seq<Text>): Resolved {
    if tokens == [] then Ok(current)
    else
      var next := Step(table, current, tokens[0]);
      if next.Err? then next else Walk(table, next.value, tokens[1..])
  }

  function FollowRaw(table: DigitTable, current: Data, raws: seq<Text>): Resolved {
    if raws == [] then Ok(current)
    else if !EscapesPass(raws[0]) then Err(BadEscape)
    else
      var next := Step(table, current, Unescape(raws[0]));
      if next.Err? then next else FollowRaw(table, next.value, raws[1..])
  }

  function Resolve(table: DigitTable, value: Data, pointer: Text): Resolved {
    if pointer == [] then Ok(value)
    else if pointer[0] != SLASH then Err(NoLeadingSlash)
    else FollowRaw(table, value, SplitSlash(pointer[1..]))
  }

  /** `_json_pointer`. */
  method ResolvePointer(table: DigitTable, value: Data, pointer: Text) returns (r: Resolved)
    ensures r == Resolve(table, value, pointer)
  {
    if pointer == [] { return Ok(value); }
    if pointer[0] != SLASH { return Err(NoLeadingSlash); }
    var current, raws := value, SplitSlash(pointer[1..]);
    assert raws[0..] == raws;
    for i := 0 to |raws|
      invariant FollowRaw(table, current, raws[i..]) == Resolve(table, value, pointer)
    {
      hide Step, Unescape, EscapesPass;
      assert raws[i..][1..] == raws[i + 1..];
      var token := Unescape(raws[i]);
      if !EscapesPass(raws[i]) { return Err(BadEscape); }
      var next := Step(table, current, token);
      if next.Err? { return next; }
      current := next.value;
    }
    return Ok(current);
  }

  // ----- escapes -----

  /** Section 3 of RFC 6901, from left to right: a tilde is always followed by 0 or 1. */
  predicate ValidToken(raw: Text) {
    if raw == [] then true
    else if raw[0] == TILDE then |raw| >= 2 && (raw[1] == ZERO || raw[1] == ONE) && ValidToken(raw[2..])
    else ValidToken(raw[1..])
  }

  function Decoded(raw: Text): Text
    requires ValidToken(raw)
  {
    if raw == [] then []
    else if raw[0] == TILDE then [if raw[1] == ZERO then TILDE else SLASH] + Decoded(raw[2..])
    else [raw[0]] + Decoded(raw[1..])
  }

  /** Somewhere a tilde stands right before `~0`. */
  predicate HidesTilde(raw: Text) {
    exists i :: 0 <= i < |raw| - 2 && raw[i] == TILDE && raw[i + 1] == TILDE && raw[i + 2] == ZERO
  }

  /** Every tilde is followed by 1. */
  predicate TildesBeforeOne(t: Text) {
    forall i :: 0 <= i < |t| && t[i] == TILDE ==> i + 1 < |t| && t[i + 1] == ONE
  }

  lemma {:induction false} RemovalLeavesTilde(t: Text)
    ensures TILDE !in Replace(t, TILDE, ONE, []) <==> TildesBeforeOne(t)
  {
    if t != [] {
      if |t| >= 2 && t[0] == TILDE && t[1] == ONE {
        RemovalLeavesTilde(t[2..]);
        assert forall i :: 0 <= i < |t[2..]| ==> t[2..][i] == t[i + 2];
        assert TildesBeforeOne(t) <==> TildesBeforeOne(t[2..]) by { TildesTwo(t); }
      } else {
        RemovalLeavesTilde(t[1..]);
        TildesCons(t[0], t[1..]);
        assert t == [t[0]] + t[1..];
      }
    }
  }

  lemma {:induction false} TildesCons(c: Unit, t: Text)
    ensures TildesBeforeOne([c] + t) <==> (c == TILDE ==> t != [] && t[0] == ONE) && TildesBeforeOne(t)
  {
    var u := [c] + t;
    assert forall i :: 0 <= i < |t| ==> u[i + 1] == t[i];
    if TildesBeforeOne(u) {
      forall i | 0 <= i < |t| && t[i] == TILDE ensures i + 1 < |t| && t[i + 1] == ONE { assert u[i + 1] == TILDE; }
      assert c == TILDE ==> u[0] == TILDE;
    }
  }

  lemma {:induction false} TildesTwo(t: Text)
    requires |t| >= 2 && t[0] == TILDE && t[1] == ONE
    ensures TildesBeforeOne(t) <==> TildesBeforeOne(t[2..])
  {
    assert t == [TILDE] + ([ONE] + t[2..]);
    TildesCons(TILDE, [ONE] + t[2..]);
    TildesCons(ONE, t[2..]);
  }

  lemma {:induction false} HidesCons(raw: Text)
    requires raw != []
    ensures HidesTilde(raw) <==>
      (|raw| >= 3 && raw[0] == TILDE && raw[1] == TILDE && raw[2] == ZERO) || HidesTilde(raw[1..])
  {
    var rest := raw[1..];
    if HidesTilde(rest) {
      var i :| 0 <= i < |rest| - 2 && rest[i] == TILDE && rest[i + 1] == TILDE && rest[i + 2] == ZERO;
      assert raw[i + 1] == TILDE && raw[i + 1 + 1] == TILDE && raw[i + 1 + 2] == ZERO;
    }
    if HidesTilde(raw) {
      var i :| 0 <= i < |raw| - 2 && raw[i] == TILDE && raw[i + 1] == TILDE && raw[i + 2] == ZERO;
      if i > 0 { assert rest[i - 1] == TILDE && rest[i - 1 + 1] == TILDE && rest[i - 1 + 2] == ZERO; }
    }
  }

  /** The escape test passes exactly the valid tokens and some that hide a tilde before `~0`. */
  lemma {:induction false} EscapeTestGap(raw: Text)
    ensures ValidToken(raw) <==> EscapesPass(raw) && !HidesTilde(raw)
  {
    RemovalLeavesTilde(Replace(raw, TILDE, ZERO, []));
    GapBySuffix(raw);
  }

  lemma {:induction false} GapBySuffix(raw: Text)
    ensures ValidToken(raw) <==> TildesBeforeOne(Replace(raw, TILDE, ZERO, [])) && !HidesTilde(raw)
  {
    if raw != [] {
      HidesCons(raw);
      var removed := Replace(raw, TILDE, ZERO, []);
      if raw[0] != TILDE {
        GapBySuffix(raw[1..]);
        TildesCons(raw[0], Replace(raw[1..], TILDE, ZERO, []));
      } else if |raw| == 1 {
        assert removed[0] == TILDE && |removed| == 1;
      } else {
        HidesCons(raw[1..]);
        assert raw[1..][1..] == raw[2..];
        if raw[1] == ZERO {
          GapBySuffix(raw[2..]);
          assert removed == Replace(raw[2..], TILDE, ZERO, []);
        } else {
          var after := Replace(raw[1..], TILDE, ZERO, []);
          assert removed == [TILDE] + after;
          TildesCons(TILDE, after);
          if raw[1] == ONE {
            GapBySuffix(raw[2..]);
            assert after == [ONE] + Replace(raw[2..], TILDE, ZERO, []);
            TildesCons(ONE, Replace(raw[2..], TILDE, ZERO, []));
          } else if !(|raw| >= 3 && raw[1] == TILDE && raw[2] == ZERO) {
            assert after[0] == raw[1];
          }
        }
      }
    }
  }

  /** On valid tokens the two replacements decode as a reading from left to right does. */
  lemma {:induction false} UnescapeDecodes(raw: Text)
    requires ValidToken(raw)
    ensures Unescape(raw) == Decoded(raw)
  {
    if raw != [] {
      if raw[0] == TILDE {
        UnescapeDecodes(raw[2..]);
        var rest := Replace(raw[2..], TILDE, ONE, [SLASH]);
        if raw[1] == ONE {
          assert Replace(raw, TILDE, ONE, [SLASH]) == [SLASH] + rest;
          assert ([SLASH] + rest)[1..] == rest;
        } else {
          assert raw[1..][1..] == raw[2..];
          assert Replace(raw, TILDE, ONE, [SLASH]) == [TILDE] + ([ZERO] + rest);
          assert ([TILDE] + ([ZERO] + rest))[2..] == rest;
        }
      } else {
        UnescapeDecodes(raw[1..]);
        var rest := Replace(raw[1..], TILDE, ONE, [SLASH]);
        assert ([raw[0]] + rest)[1..] == rest;
      }
    }
  }

  // ----- round trip -----

  /** Section 4: `~` becomes `~0` and `/` becomes `~1`. */
  function Escaped(token: Text): Text {
    if token == [] then []
    else
      (if token[0] == TILDE then [TILDE, ZERO] else if token[0] == SLASH then [TILDE, ONE] else [token[0]])
      + Escaped(token[1..])
  }

  function Pointer(tokens: seq<Text>): Text {
    if tokens == [] then [] else [SLASH] + Escaped(tokens[0]) + Pointer(tokens[1..])
  }

  lemma {:induction false} EscapedDecodes(token: Text)
    ensures ValidToken(Escaped(token)) && Decoded(Escaped(token)) == token && SLASH !in Escaped(token)
  {
    if token != [] {
      EscapedDecodes(token[1..]);
      var rest, e := Escaped(token[1..]), Escaped(token);
      if token[0] == TILDE || token[0] == SLASH { assert e[2..] == rest; } else { assert e[1..] == rest; }
      assert token == [token[0]] + token[1..];
    }
  }

  lemma {:induction false} SplitEscaped(part: Text, tail: Text)
    requires SLASH !in part && (tail == [] || tail[0] == SLASH)
    ensures SplitSlash(part + tail) == [part] + if tail == [] then [] else SplitSlash(tail[1..])
  {
    var t := part + tail;
    if part == [] {
      assert t == tail;
    } else {
      assert t[1..] == part[1..] + tail;
      SplitEscaped(part[1..], tail);
      assert [part[0]] + part[1..] == part;
    }
  }

  function EscapedAll(tokens: seq<Text>): seq<Text> {
    if tokens == [] then [] else [Escaped(tokens[0])] + EscapedAll(tokens[1..])
  }

  lemma {:induction false} PointerSplits(tokens: seq<Text>)
    requires tokens != []
    ensures var p := Pointer(tokens); p[0] == SLASH && SplitSlash(p[1..]) == EscapedAll(tokens)
  {
    hide Escaped, SplitSlash, ValidToken, Decoded;
    var part, tail := Escaped(tokens[0]), Pointer(tokens[1..]);
    EscapedDecodes(tokens[0]);
    assert Pointer(tokens)[1..] == part + tail;
    if |tokens| > 1 { PointerSplits(tokens[1..]); }
    SplitEscaped(part, tail);
  }

  lemma {:induction false} FollowEscaped(table: DigitTable, current: Data, tokens: seq<Text>)
    ensures FollowRaw(table, current, EscapedAll(tokens)) == Walk(table, current, tokens)
  {
    if tokens != [] {
      var raw := Escaped(tokens[0]);
      EscapedDecodes(tokens[0]);
      EscapeTestGap(raw);
      UnescapeDecodes(raw);
      assert EscapedAll(tokens)[1..] == EscapedAll(tokens[1..]);
      var next := Step(table, current, tokens[0]);
      hide Step, EscapesPass, Unescape;
      if next.Ok? { FollowEscaped(table, next.value, tokens[1..]); }
    }
  }

  /** Encoding any tokens and resolving the pointer is walking them, in every document. */
  lemma {:induction false} PointerWalks(table: DigitTable, value: Data, tokens: seq<Text>)
    ensures Resolve(table, value, Pointer(tokens)) == Walk(table, value, tokens)
  {
    if tokens != [] {
      PointerSplits(tokens);
      FollowEscaped(table, value, tokens);
    }
  }

  /** A path that names dictionary keys and list positions. */
  datatype PathStep = Key(name: Text) | Index(i: nat)

  function TokenOf(s: PathStep): Text { if s.Key? then s.name else DigitsOf(s.i) }

  function Tokens(path: seq<PathStep>): seq<Text> {
    if path == [] then [] else [TokenOf(path[0])] + Tokens(path[1..])
  }

  /** The value a path leads to, when every step fits. */
  function At(value: Data, path: seq<PathStep>): Option<Data> {
    if path == [] then Some(value)
    else
      match path[0]
      case Key(k) => if value.Dict? && k in value.fields then At(value.fields[k], path[1..]) else None
      case Index(i) => if value.List? && i < |value.items| then At(value.items[i], path[1..]) else None
  }

  /** The pointer of a path resolves to the value the path leads to. */
  lemma {:induction false} PathRoundTrip(table: DigitTable, value: Data, path: seq<PathStep>)
    requires AsciiDigits(table) && At(value, path).Some?
    ensures Resolve(table, value, Pointer(Tokens(path))) == Ok(At(value, path).value)
  {
    PointerWalks(table, value, Tokens(path));
    PathWalks(table, value, path);
  }

  lemma {:induction false} PathWalks(table: DigitTable, value: Data, path: seq<PathStep>)
    requires AsciiDigits(table) && At(value, path).Some?
    ensures Walk(table, value, Tokens(path)) == Ok(At(value, path).value)
  {
    if path != [] {
      assert Tokens(path)[1..] == Tokens(path[1..]);
      match path[0]
      case Key(k) => PathWalks(table, value.fields[k], path[1..]);
      case Index(i) =>
        DigitsOfLeading(table, i);
        PathWalks(table, value.items[i], path[1..]);
    }
  }

  lemma {:induction false} DigitsOfLeading(table: DigitTable, n: nat)
    requires AsciiDigits(table)
    ensures var t := DigitsOf(n); IndexToken(table, t) && Readable(table, t) && IndexValue(table, t) == n
  {
    DigitsOfOk(n);
    AsciiValue(table, DigitsOf(n));
  }

  // ----- the gap -----

  lemma {:induction false} ReplaceHere(a: Unit, b: Unit, rest: Text, other: Text)
    ensures Replace([a, b] + rest, a, b, other) == other + Replace(rest, a, b, other)
  {
    assert ([a, b] + rest)[2..] == rest;
  }

  lemma {:induction false} ReplaceNotHere(c: Unit, rest: Text, a: Unit, b: Unit, other: Text)
    requires c != a || rest == [] || rest[0] != b
    ensures Replace([c] + rest, a, b, other) == [c] + Replace(rest, a, b, other)
  {
    assert ([c] + rest)[1..] == rest;
  }

  lemma {:induction false} HiddenTildePasses()
    ensures var raw: Text := [TILDE, TILDE, ZERO, ONE]; EscapesPass(raw) && Unescape(raw) == [TILDE, TILDE, ONE]
  {
    var t: Text, raw: Text := [TILDE, ZERO, ONE], [TILDE, TILDE, ZERO, ONE];
    assert t == [TILDE, ZERO] + [ONE] == [TILDE] + [ZERO, ONE] && raw == [TILDE] + t;
    assert [ZERO, ONE] == [ZERO] + [ONE] && [ONE] == [ONE] + [];
    forall other: Text ensures Replace(raw, TILDE, ZERO, other) == [TILDE] + (other + [ONE]) {
      ReplaceNotHere(ONE, [], TILDE, ZERO, other);
      ReplaceHere(TILDE, ZERO, [ONE], other);
      ReplaceNotHere(TILDE, t, TILDE, ZERO, other);
    }
    ReplaceNotHere(ONE, [], TILDE, ONE, [SLASH]);
    ReplaceNotHere(ZERO, [ONE], TILDE, ONE, [SLASH]);
    ReplaceNotHere(TILDE, [ZERO, ONE], TILDE, ONE, [SLASH]);
    ReplaceNotHere(TILDE, t, TILDE, ONE, [SLASH]);
    assert Replace(raw, TILDE, ZERO, []) == [TILDE, ONE] + [];
    ReplaceHere(TILDE, ONE, [], []);
  }

  /** `~~01` breaks the escape rule, passes the test, and names the key `~~1`. */
  lemma {:induction false} HiddenTildeAccepted(table: DigitTable, value: Data)
    ensures var raw: Text := [TILDE, TILDE, ZERO, ONE];
            var key: Text := [TILDE, TILDE, ONE];
            && !ValidToken(raw) && EscapesPass(raw)
            && Resolve(table, Dict(map[key := value]), [SLASH] + raw) == Ok(value)
  {
    var raw: Text := [TILDE, TILDE, ZERO, ONE];
    HiddenTildePasses();
    SplitEscaped(raw, []);
    hide Unescape, EscapesPass, SplitSlash;
    assert raw + [] == raw && ([SLASH] + raw)[1..] == raw;
    assert [raw] + [] == [raw] && [raw][1..] == [];
    var document := Dict(map[[TILDE, TILDE, ONE] := value]);
    assert Step(table, document, [TILDE, TILDE, ONE]) == Ok(value);
    assert FollowRaw(table, document, [raw]) == FollowRaw(table, value, []);
  }
}

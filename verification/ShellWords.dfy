/** The hook's shell lexers: a command line is split at operators, a segment into words. */
module ShellWords {
  import opened Prelude
  import opened JsonText

  const APOSTROPHE: Unit := 39
  const SPACE: Unit := 32

  /** What JavaScript's `\s` matches and `trim` removes. */
  predicate Space(c: Unit) {
    9 <= c <= 13 || c == 32 || c == 0xA0 || c == 0x1680 || 0x2000 <= c <= 0x200A
    || c == 0x2028 || c == 0x2029 || c == 0x202F || c == 0x205F || c == 0x3000 || c == 0xFEFF
  }

  /** Newline, semicolon, bar, ampersand. */
  predicate Separator(c: Unit) { c == 10 || c == 59 || c == 124 || c == 38 }

  predicate QuoteMark(c: Unit) { c == APOSTROPHE || c == QUOTE }

  function TrimLeft(t: Text): Text {
    if t != [] && Space(t[0]) then TrimLeft(t[1..]) else t
  }

  function TrimRight(t: Text): Text {
    if t != [] && Space(t[|t| - 1]) then TrimRight(t[..|t| - 1]) else t
  }

  function Trim(t: Text): Text { TrimRight(TrimLeft(t)) }

  /** A segment or word is kept only when something is left of it. */
  function Kept(t: Text): seq<Text> { if t == [] then [] else [t] }

  function SkipSame(t: Text, c: Unit): (rest: Text)
    ensures |rest| <= |t|
  {
    if t != [] && t[0] == c then SkipSame(t[1..], c) else t
  }

  /** The segments of `t`, with `current` collected so far, inside `quote`, perhaps after a backslash. */
  function Split(t: Text, current: Text, quote: Option<Unit>, escaped: bool): seq<Text>
    decreases |t|
  {
    if t == [] then Kept(Trim(current))
    else
      var c := t[0];
      if escaped then Split(t[1..], current + [c], quote, false)
      else if c == BACKSLASH && quote != Some(APOSTROPHE) then Split(t[1..], current + [c], quote, true)
      else if quote.Some? then Split(t[1..], current + [c], if c == quote.value then None else quote, false)
      else if QuoteMark(c) then Split(t[1..], current + [c], Some(c), false)
      else if Separator(c) then Kept(Trim(current)) + Split(SkipSame(t[1..], c), [], None, false)
      else Split(t[1..], current + [c], None, false)
  }

  /** The words of `t`, quotes and backslashes removed. */
  function Lex(t: Text, current: Text, quote: Option<Unit>, escaped: bool): seq<Text>
    decreases |t|
  {
    if t == [] then Kept(current)
    else
      var c := t[0];
      if escaped then Lex(t[1..], current + [c], quote, false)
      else if c == BACKSLASH && quote != Some(APOSTROPHE) then Lex(t[1..], current, quote, true)
      else if quote.Some? then
        if c == quote.value then Lex(t[1..], current, None, false) else Lex(t[1..], current + [c], quote, false)
      else if QuoteMark(c) then Lex(t[1..], current, Some(c), false)
      else if Space(c) then Kept(current) + Lex(t[1..], [], None, false)
      else Lex(t[1..], current + [c], None, false)
  }

  // ----- the loops -----

  /** Moves to the last of a run of equal characters. */
  method SkipRepeats(command: Text, from: nat) returns (index: nat)
    requires from < |command|
    ensures from <= index < |command| && SkipSame(command[from + 1..], command[from]) == command[index + 1..]
  {
    index := from;
    while index + 1 < |command| && command[index + 1] == command[from]
      invariant from <= index < |command|
      invariant SkipSame(command[index + 1..], command[from]) == SkipSame(command[from + 1..], command[from])
    {
      assert command[index + 1..][1..] == command[index + 2..];
      index := index + 1;
    }
  }

  /** `shellCommandSegments`. */
  method ShellCommandSegments(command: Text) returns (segments: seq<Text>)
    ensures segments == Split(command, [], None, false)
  {
    segments := [];
    var current: Text, quote: Option<Unit>, escaped := [], None, false;
    var index := 0;
    assert command[0..] == command;
    while index < |command|
      invariant index <= |command|
      invariant segments + Split(command[index..], current, quote, escaped) == Split(command, [], None, false)
    {
      hide Trim, Kept, SkipSame;
      var character := command[index];
      assert command[index..][1..] == command[index + 1..];
      if escaped {
        current, escaped := current + [character], false;
      } else if character == BACKSLASH && quote != Some(APOSTROPHE) {
        current, escaped := current + [character], true;
      } else if quote.Some? {
        current := current + [character];
        if character == quote.value { quote := None; }
      } else if QuoteMark(character) {
        current, quote := current + [character], Some(character);
      } else if Separator(character) {
        segments := segments + Kept(Trim(current));
        current := [];
        index := SkipRepeats(command, index);
      } else {
        current := current + [character];
      }
      index := index + 1;
    }
    segments := segments + Kept(Trim(current));
  }

  /** `shellTokens`. */
  method ShellTokens(segment: Text) returns (tokens: seq<Text>)
    ensures tokens == Lex(segment, [], None, false)
  {
    tokens := [];
    var current: Text, quote: Option<Unit>, escaped := [], None, false;
    assert segment[0..] == segment;
    for index := 0 to |segment|
      invariant tokens + Lex(segment[index..], current, quote, escaped) == Lex(segment, [], None, false)
    {
      hide Kept;
      var character := segment[index];
      assert segment[index..][1..] == segment[index + 1..];
      if escaped {
        current, escaped := current + [character], false;
      } else if character == BACKSLASH && quote != Some(APOSTROPHE) {
        escaped := true;
      } else if quote.Some? {
        if character == quote.value { quote := None; } else { current := current + [character]; }
      } else if QuoteMark(character) {
        quote := Some(character);
      } else if Space(character) {
        tokens, current := tokens + Kept(current), [];
      } else {
        current := current + [character];
      }
    }
    tokens := tokens + Kept(current);
  }

  // ----- quoting -----

  /** The inside of a single-quoted word; an apostrophe leaves the quotes, is escaped, and re-enters. */
  function Body(word: Text): Text {
    if word == [] then []
    else
      (if word[0] == APOSTROPHE then [APOSTROPHE, BACKSLASH, APOSTROPHE, APOSTROPHE] else [word[0]]) + Body(word[1..])
  }

  function Quoted(word: Text): Text { [APOSTROPHE] + Body(word) + [APOSTROPHE] }

  function Line(words: seq<Text>): Text {
    if words == [] then []
    else if |words| == 1 then Quoted(words[0])
    else Quoted(words[0]) + [SPACE] + Line(words[1..])
  }

  /** Commands joined by separators; a separator may repeat characters, as in `&&` and `||`. */
  function Script(commands: seq<seq<Text>>, separators: seq<Text>): Text
    requires |separators| + 1 >= |commands|
  {
    if commands == [] then []
    else if |commands| == 1 then Line(commands[0])
    else Line(commands[0]) + separators[0] + Script(commands[1..], separators[1..])
  }

  predicate SeparatorRun(s: Text) { s != [] && forall i :: 0 <= i < |s| ==> Separator(s[i]) }

  function NonEmpty(words: seq<Text>): seq<Text> {
    if words == [] then [] else Kept(words[0]) + NonEmpty(words[1..])
  }

  /** What comes back: empty commands vanish, and so do the empty words of the others. */
  function Surviving(commands: seq<seq<Text>>): seq<seq<Text>> {
    if commands == [] then []
    else (if commands[0] == [] then [] else [NonEmpty(commands[0])]) + Surviving(commands[1..])
  }

  function LexAll(segments: seq<Text>): seq<seq<Text>> {
    if segments == [] then [] else [Lex(segments[0], [], None, false)] + LexAll(segments[1..])
  }

  // ----- a quoted word passes through whole -----

  /** One character outside or inside single quotes, with no pending backslash. */
  lemma {:induction false} SplitOne(c: Unit, rest: Text, current: Text, quote: Option<Unit>, escaped: bool)
    ensures escaped ==> Split([c] + rest, current, quote, true) == Split(rest, current + [c], quote, false)
    ensures c == BACKSLASH ==> Split([c] + rest, current, None, false) == Split(rest, current + [c], None, true)
    ensures Split([c] + rest, current, Some(APOSTROPHE), false)
         == Split(rest, current + [c], if c == APOSTROPHE then None else Some(APOSTROPHE), false)
    ensures c == APOSTROPHE ==> Split([c] + rest, current, None, false) == Split(rest, current + [c], Some(c), false)
    ensures c == SPACE ==> Split([c] + rest, current, None, false) == Split(rest, current + [c], None, false)
  {
    assert ([c] + rest)[1..] == rest;
  }

  lemma {:induction false} SplitApostrophe(rest: Text, current: Text)
    ensures var mark := [APOSTROPHE, BACKSLASH, APOSTROPHE, APOSTROPHE];
            Split(mark + rest, current, Some(APOSTROPHE), false) == Split(rest, current + mark, Some(APOSTROPHE), false)
  {
    hide Split;
    var q, b := [APOSTROPHE], [BACKSLASH];
    assert [APOSTROPHE, BACKSLASH, APOSTROPHE, APOSTROPHE] + rest == q + (b + (q + (q + rest)));
    SplitOne(APOSTROPHE, b + (q + (q + rest)), current, Some(APOSTROPHE), false);
    SplitOne(BACKSLASH, q + (q + rest), current + q, None, false);
    SplitOne(APOSTROPHE, q + rest, current + q + b, None, true);
    SplitOne(APOSTROPHE, rest, current + q + b + q, None, false);
    assert current + q + b + q + q == current + [APOSTROPHE, BACKSLASH, APOSTROPHE, APOSTROPHE];
  }

  lemma {:induction false} SplitBody(word: Text, rest: Text, current: Text)
    ensures Split(Body(word) + rest, current, Some(APOSTROPHE), false)
         == Split(rest, current + Body(word), Some(APOSTROPHE), false)
  {
    hide Split;
    if word == [] {
      assert Body(word) + rest == rest && current + Body(word) == current;
    } else {
      var mark := if word[0] == APOSTROPHE then [APOSTROPHE, BACKSLASH, APOSTROPHE, APOSTROPHE] else [word[0]];
      assert Body(word) + rest == mark + (Body(word[1..]) + rest);
      if word[0] == APOSTROPHE {
        SplitApostrophe(Body(word[1..]) + rest, current);
      } else {
        SplitOne(word[0], Body(word[1..]) + rest, current, None, false);
      }
      SplitBody(word[1..], rest, current + mark);
      assert current + mark + Body(word[1..]) == current + Body(word);
    }
  }

  lemma {:induction false} SplitWord(word: Text, rest: Text, current: Text)
    ensures Split(Quoted(word) + rest, current, None, false) == Split(rest, current + Quoted(word), None, false)
  {
    hide Split, Body;
    var closing := [APOSTROPHE] + rest;
    assert Quoted(word) + rest == [APOSTROPHE] + (Body(word) + closing);
    SplitOne(APOSTROPHE, Body(word) + closing, current, None, false);
    SplitBody(word, closing, current + [APOSTROPHE]);
    SplitOne(APOSTROPHE, rest, current + [APOSTROPHE] + Body(word), None, false);
    assert current + [APOSTROPHE] + Body(word) + [APOSTROPHE] == current + Quoted(word);
  }

  lemma {:induction false} SplitLine(words: seq<Text>, rest: Text, current: Text)
    ensures Split(Line(words) + rest, current, None, false) == Split(rest, current + Line(words), None, false)
  {
    hide Split, Quoted;
    if words == [] {
      assert Line(words) + rest == rest && current + Line(words) == current;
    } else if |words| == 1 {
      SplitWord(words[0], rest, current);
    } else {
      var q, more := Quoted(words[0]), Line(words[1..]);
      assert Line(words) + rest == q + ([SPACE] + (more + rest));
      SplitWord(words[0], [SPACE] + (more + rest), current);
      SplitOne(SPACE, more + rest, current + q, None, false);
      SplitLine(words[1..], rest, current + q + [SPACE]);
      assert current + q + [SPACE] + more == current + Line(words);
    }
  }

  lemma {:induction false} LexOne(c: Unit, rest: Text, current: Text, quote: Option<Unit>)
    ensures Lex([c] + rest, current, quote, true) == Lex(rest, current + [c], quote, false)
    ensures c == BACKSLASH ==> Lex([c] + rest, current, None, false) == Lex(rest, current, None, true)
    ensures Lex([c] + rest, current, Some(APOSTROPHE), false)
         == if c == APOSTROPHE then Lex(rest, current, None, false)
            else Lex(rest, current + [c], Some(APOSTROPHE), false)
    ensures c == APOSTROPHE ==> Lex([c] + rest, current, None, false) == Lex(rest, current, Some(c), false)
    ensures c == SPACE ==> Lex([c] + rest, current, None, false) == Kept(current) + Lex(rest, [], None, false)
  {
    assert ([c] + rest)[1..] == rest;
  }

  lemma {:induction false} LexApostrophe(rest: Text, current: Text)
    ensures Lex([APOSTROPHE, BACKSLASH, APOSTROPHE, APOSTROPHE] + rest, current, Some(APOSTROPHE), false)
         == Lex(rest, current + [APOSTROPHE], Some(APOSTROPHE), false)
  {
    hide Lex;
    var q, b := [APOSTROPHE], [BACKSLASH];
    assert [APOSTROPHE, BACKSLASH, APOSTROPHE, APOSTROPHE] + rest == q + (b + (q + (q + rest)));
    LexOne(APOSTROPHE, b + (q + (q + rest)), current, Some(APOSTROPHE));
    LexOne(BACKSLASH, q + (q + rest), current, None);
    LexOne(APOSTROPHE, q + rest, current, None);
    LexOne(APOSTROPHE, rest, current + q, None);
  }

  lemma {:induction false} LexBody(word: Text, rest: Text, current: Text)
    ensures Lex(Body(word) + rest, current, Some(APOSTROPHE), false)
         == Lex(rest, current + word, Some(APOSTROPHE), false)
  {
    hide Lex;
    if word == [] {
      assert Body(word) + rest == rest && current + word == current;
    } else {
      var mark := if word[0] == APOSTROPHE then [APOSTROPHE, BACKSLASH, APOSTROPHE, APOSTROPHE] else [word[0]];
      assert Body(word) + rest == mark + (Body(word[1..]) + rest);
      if word[0] == APOSTROPHE {
        LexApostrophe(Body(word[1..]) + rest, current);
      } else {
        LexOne(word[0], Body(word[1..]) + rest, current, None);
      }
      LexBody(word[1..], rest, current + [word[0]]);
      assert current + [word[0]] + word[1..] == current + word;
    }
  }

  lemma {:induction false} LexWord(word: Text, rest: Text)
    ensures Lex(Quoted(word) + rest, [], None, false) == Lex(rest, word, None, false)
  {
    hide Lex, Body;
    var closing := [APOSTROPHE] + rest;
    assert Quoted(word) + rest == [APOSTROPHE] + (Body(word) + closing);
    LexOne(APOSTROPHE, Body(word) + closing, [], None);
    LexBody(word, closing, []);
    assert [] + word == word;
    LexOne(APOSTROPHE, rest, word, None);
  }

  /** A line of quoted words is read back as its non-empty words. */
  lemma {:induction false} LexLine(words: seq<Text>)
    ensures Lex(Line(words), [], None, false) == NonEmpty(words)
  {
    if |words| == 1 {
      LexWord(words[0], []);
      assert Quoted(words[0]) + [] == Quoted(words[0]);
      assert Kept(words[0]) + [] == Kept(words[0]);
    } else if |words| > 1 {
      assert Line(words) == Quoted(words[0]) + ([SPACE] + Line(words[1..]));
      LexWord(words[0], [SPACE] + Line(words[1..]));
      LexOne(SPACE, Line(words[1..]), words[0], None);
      LexLine(words[1..]);
    }
  }

  // ----- lines are cut exactly at the separators -----

  lemma {:induction false} LineEnds(words: seq<Text>)
    requires words != []
    ensures Line(words) != [] && Line(words)[0] == APOSTROPHE && Line(words)[|Line(words)| - 1] == APOSTROPHE
    ensures Trim(Line(words)) == Line(words)
  {
    if |words| > 1 { LineEnds(words[1..]); }
  }

  /** A run of separators with nothing before it produces nothing. */
  lemma {:induction false} SkipHarmless(t: Text, c: Unit)
    requires Separator(c)
    ensures Split(SkipSame(t, c), [], None, false) == Split(t, [], None, false)
  {
    if t != [] && t[0] == c {
      SkipHarmless(t[1..], c);
      assert Kept(Trim([])) == [];
    }
  }

  lemma {:induction false} SplitRun(s: Text, rest: Text, current: Text)
    requires SeparatorRun(s)
    ensures Split(s + rest, current, None, false) == Kept(Trim(current)) + Split(rest, [], None, false)
  {
    assert (s + rest)[1..] == s[1..] + rest;
    SkipHarmless(s[1..] + rest, s[0]);
    if |s| > 1 {
      SplitRun(s[1..], rest, []);
      assert Kept(Trim([])) == [];
    } else {
      assert s[1..] + rest == rest;
    }
  }

  lemma {:induction false} SegmentsAre(commands: seq<seq<Text>>, separators: seq<Text>)
    requires |separators| + 1 >= |commands|
    requires forall i :: 0 <= i < |separators| ==> SeparatorRun(separators[i])
    ensures LexAll(Split(Script(commands, separators), [], None, false)) == Surviving(commands)
  {
    if commands != [] {
      var line := Line(commands[0]);
      var segment := Kept(Trim(line));
      SegmentOf(commands[0]);
      assert [] + line == line;
      if |commands| == 1 {
        SplitLine(commands[0], [], []);
        assert line + [] == line;
        assert segment + [] == segment;
        LexAllCons(segment, []);
      } else {
        hide Split, Kept, Trim, LexAll;
        var rest := Script(commands[1..], separators[1..]);
        assert Script(commands, separators) == line + (separators[0] + rest);
        SplitLine(commands[0], separators[0] + rest, []);
        SplitRun(separators[0], rest, line);
        SegmentsAre(commands[1..], separators[1..]);
        LexAllCons(segment, Split(rest, [], None, false));
      }
    }
  }

  lemma {:induction false} LexAllCons(a: seq<Text>, b: seq<Text>)
    requires |a| <= 1
    ensures LexAll(a + b) == LexAll(a) + LexAll(b)
  {
    if |a| == 1 { assert (a + b)[1..] == b; } else { assert a + b == b; }
  }

  lemma {:induction false} SegmentOf(words: seq<Text>)
    ensures var segment := Kept(Trim(Line(words)));
            |segment| <= 1 && LexAll(segment) == if words == [] then [] else [NonEmpty(words)]
  {
    if words != [] { LineEnds(words); }
    LexLine(words);
  }

  predicate AllNonEmpty(commands: seq<seq<Text>>) {
    forall i :: 0 <= i < |commands| ==> commands[i] != [] && [] !in commands[i]
  }

  lemma {:induction false} NonEmptyKeeps(words: seq<Text>)
    ensures NonEmpty(words) == words <==> [] !in words
    ensures |NonEmpty(words)| <= |words|
    ensures [] !in NonEmpty(words)
  {
    if words != [] {
      NonEmptyKeeps(words[1..]);
      assert words == [words[0]] + words[1..];
      assert words[0] != [] ==> NonEmpty(words)[1..] == NonEmpty(words[1..]);
    }
  }

  lemma {:induction false} SurvivingKeeps(commands: seq<seq<Text>>)
    ensures Surviving(commands) == commands <==> AllNonEmpty(commands)
    ensures |Surviving(commands)| <= |commands|
  {
    if commands != [] {
      var rest := commands[1..];
      SurvivingKeeps(rest);
      NonEmptyKeeps(commands[0]);
      assert commands == [commands[0]] + rest;
      assert AllNonEmpty(commands) <==> commands[0] != [] && [] !in commands[0] && AllNonEmpty(rest);
      if commands[0] != [] { assert Surviving(commands)[1..] == Surviving(rest); }
    }
  }

  /**
   Main theorem: splitting and then tokenising what was quoted and joined gives back the original
   lists exactly when no command and no word is empty.
   */
  lemma {:induction false} LexersInvertQuoting(commands: seq<seq<Text>>, separators: seq<Text>)
    requires |separators| + 1 >= |commands|
    requires forall i :: 0 <= i < |separators| ==> SeparatorRun(separators[i])
    ensures LexAll(Split(Script(commands, separators), [], None, false)) == commands <==> AllNonEmpty(commands)
  {
    SegmentsAre(commands, separators);
    SurvivingKeeps(commands);
  }
}

/** How long canonical texts are at least: every part of a value takes its room in the text. */
module CanonicalSize {
  import opened Prelude
  import opened JsonText
  import opened CanonicalJson

  /** The text of this value has at least `n` units, whatever follows it. */
  ghost predicate Takes(v: Value, n: nat) {
    forall rest :: |Print(v, rest)| >= |rest| + n
  }

  lemma {:induction false} PiecesSize(s: Text, rest: Text)
    ensures |PrintPieces(Pieces(s), rest)| >= |rest| + |s|
  {
    if s != [] {
      PiecesSize(s[1..], rest);
      assert Pieces(s)[1..] == Pieces(s[1..]);
    }
  }

  lemma {:induction false} WordsTake(s: Text)
    ensures Takes(Tree(Words(s)), |s| + 2)
  {
    forall rest ensures |Print(Tree(Words(s)), rest)| >= |rest| + |s| + 2 {
      PiecesSize(s, [QUOTE] + rest);
    }
  }

  lemma {:induction false} PrintGrows(v: Value, rest: Text)
    ensures |Print(v, rest)| >= |rest|
    decreases v
  {
    match v
    case Str(ps) => PiecesGrow(ps, [QUOTE] + rest);
    case Array(items) => ItemsGrow(items, rest);
    case Object(members) => MembersGrow(members, rest);
    case _ =>
  }

  lemma {:induction false} PiecesGrow(ps: seq<Piece>, rest: Text)
    ensures |PrintPieces(ps, rest)| >= |rest|
  {
    if ps != [] { PiecesGrow(ps[1..], rest); }
  }

  lemma {:induction false} ItemsGrow(items: Items, rest: Text)
    ensures |PrintItems(items, rest)| >= |rest|
    decreases items
  {
    match items
    case LastItem(p) => PrintGrows(p.value, p.after + ([CLOSE_ARRAY] + rest));
    case MoreItems(p, more) =>
      ItemsGrow(more, rest);
      PrintGrows(p.value, p.after + ([COMMA] + PrintItems(more, rest)));
  }

  lemma {:induction false} MembersGrow(ms: Members, rest: Text)
    ensures |PrintMembers(ms, rest)| >= |rest|
    decreases ms
  {
    match ms
    case LastMember(k, p) =>
      PrintGrows(p.value, p.after + ([CLOSE_OBJECT] + rest));
      PiecesGrow(k.pieces, [QUOTE] + (k.after + ([COLON] + PrintPadded(p, [CLOSE_OBJECT] + rest))));
    case MoreMembers(k, p, more) =>
      MembersGrow(more, rest);
      PrintGrows(p.value, p.after + ([COMMA] + PrintMembers(more, rest)));
      PiecesGrow(k.pieces, [QUOTE] + (k.after + ([COLON] + PrintPadded(p, [COMMA] + PrintMembers(more, rest)))));
  }

  /** One member takes its key, its value and five units of punctuation, the opening brace excluded. */
  lemma {:induction false} MembersTake(d: Data, ks: seq<Text>, j: nat, n: nat, rest: Text)
    requires d.Dict? && ks != [] && forall k :: k in ks ==> k in d.fields
    requires j < |ks| && Takes(Tree(d.fields[ks[j]]), n)
    ensures |PrintMembers(TreeMembers(d, ks), rest)| >= |rest| + |ks[j]| + n + 4
    decreases |ks|
  {
    var value := Bare(Tree(d.fields[ks[0]]));
    var close := if |ks| == 1 then [CLOSE_OBJECT] + rest else [COMMA] + PrintMembers(TreeMembers(d, ks[1..]), rest);
    var tail := PrintPadded(value, close);
    PiecesSize(ks[0], [QUOTE] + ([] + ([COLON] + tail)));
    if |ks| > 1 { MembersGrow(TreeMembers(d, ks[1..]), rest); }
    if j == 0 {
      assert |Print(value.value, [] + close)| >= |[] + close| + n;
    } else {
      PrintGrows(value.value, [] + close);
      MembersTake(d, ks[1..], j - 1, n, rest);
    }
  }

  lemma {:induction false} DictTakes(fields: map<Text, Data>, k: Text, n: nat)
    requires k in fields && Takes(Tree(fields[k]), n)
    ensures Takes(Tree(Dict(fields)), |k| + n + 5)
  {
    var d := Dict(fields);
    var ks := SortedKeys(fields.Keys);
    assert forall x :: x in ks <==> x in Elements(ks);
    var j :| 0 <= j < |ks| && ks[j] == k;
    forall rest ensures |Print(Tree(d), rest)| >= |rest| + |k| + n + 5 {
      MembersTake(d, ks, j, n, rest);
    }
  }

  lemma {:induction false} ItemsTake(d: Data, items: seq<Data>, n: nat, rest: Text)
    requires items != [] && forall i :: 0 <= i < |items| ==> items[i] < d && Takes(Tree(items[i]), n)
    ensures |PrintItems(TreeItems(d, items), rest)| >= |rest| + |items| * (n + 1)
    decreases |items|
  {
    var first := Tree(items[0]);
    var close := if |items| == 1 then [CLOSE_ARRAY] + rest else [COMMA] + PrintItems(TreeItems(d, items[1..]), rest);
    assert |Print(first, [] + close)| >= |[] + close| + n;
    if |items| > 1 {
      ItemsTake(d, items[1..], n, rest);
      assert |items| * (n + 1) == |items[1..]| * (n + 1) + (n + 1);
    }
  }

  /** Each item of a list takes its own room and a comma. */
  lemma {:induction false} ListTakes(items: seq<Data>, n: nat)
    requires forall i :: 0 <= i < |items| ==> Takes(Tree(items[i]), n)
    ensures Takes(Tree(List(items)), |items| * (n + 1))
  {
    forall rest ensures |Print(Tree(List(items)), rest)| >= |rest| + |items| * (n + 1) {
      if items != [] { ItemsTake(List(items), items, n, rest); }
    }
  }

  lemma {:induction false} Utf8Size(t: Text)
    ensures |Utf8(t)| >= |t|
  {
    if t != [] { Utf8Size(t[1..]); }
  }

  lemma {:induction false} CanonicalTakes(d: Data, n: nat)
    requires Takes(Tree(d), n) && Canonical(d).Some?
    ensures |Canonical(d).value| > n
  {
    var text := CanonicalText(d);
    assert |Print(Tree(d), [10] + [])| >= |[10] + []| + n;
    Utf8Size(text);
  }
}

/** Canonical JSON as the audit bundle prints it, and why it loses nothing. */
module CanonicalJson {
  import opened Prelude
  import opened JsonText
  import opened JsonParser
  import opened JsonRecogniser
  import opened JsonUnique

  type Bytes = seq<nat>

  /** Python data as `json` reads and writes it; a finite float is its shortest decimal form. */
  datatype Data =
    | Nothing
    | Truth(b: bool)
    | Whole(i: int)
    | Float(form: Number)
    | NotFinite
    | Words(s: Text)
    | List(items: seq<Data>)
    | Dict(fields: map<Text, Data>)

  /** A Unicode scalar value: a code point UTF-8 can encode. */
  predicate Scalar(c: Unit) { c < 0xD800 || 0xE000 <= c < 0x110000 }

  predicate Scalars(t: Text) { forall i :: 0 <= i < |t| ==> Scalar(t[i]) }

  /** `json.dumps` with `allow_nan=False` and the UTF-8 encoding both succeed. */
  predicate Printable(d: Data) {
    match d
    case Float(n) => NumberOk(n) && (n.fraction != [] || n.exponent.Exponent?)
    case NotFinite => false
    case Words(s) => Scalars(s)
    case List(items) => forall i :: 0 <= i < |items| ==> Printable(items[i])
    case Dict(fields) => forall k :: k in fields ==> Scalars(k) && Printable(fields[k])
    case _ => true
  }

  // ----- keys in code point order -----

  predicate Before(a: Text, b: Text) {
    b != [] && (a == [] || a[0] < b[0] || (a[0] == b[0] && Before(a[1..], b[1..])))
  }

  lemma {:induction false} BeforeTotal(a: Text, b: Text)
    ensures a == b || Before(a, b) || Before(b, a)
  {
    if a != [] && b != [] && a[0] == b[0] {
      BeforeTotal(a[1..], b[1..]);
      if a[1..] == b[1..] { assert a == [a[0]] + a[1..] == [b[0]] + b[1..] == b; }
    }
  }

  lemma {:induction false} BeforeTrans(a: Text, b: Text, c: Text)
    requires Before(a, b) && Before(b, c)
    ensures Before(a, c)
  {
    if a != [] && a[0] == b[0] == c[0] { BeforeTrans(a[1..], b[1..], c[1..]); }
  }

  predicate Ascending(ks: seq<Text>) { forall i, j :: 0 <= i < j < |ks| ==> Before(ks[i], ks[j]) }

  function Elements(ks: seq<Text>): set<Text> { set k | k in ks }

  predicate LeastOf(k: Text, keys: set<Text>) {
    k in keys && forall j :: j in keys ==> j == k || Before(k, j)
  }

  lemma {:induction false} BeforeIrreflexive(a: Text)
    ensures !Before(a, a)
  {
    if a != [] { BeforeIrreflexive(a[1..]); }
  }

  lemma {:induction false} LeastUnique(j: Text, k: Text, keys: set<Text>)
    requires LeastOf(j, keys) && LeastOf(k, keys)
    ensures j == k
  {
    if j != k {
      BeforeTrans(j, k, j);
      BeforeIrreflexive(j);
    }
  }

  lemma {:induction false} LeastExists(keys: set<Text>)
    requires exists k :: k in keys
    ensures exists k :: LeastOf(k, keys)
  {
    var k :| k in keys;
    var rest := keys - {k};
    if exists j :: j in rest {
      LeastExists(rest);
      var l :| LeastOf(l, rest);
      BeforeTotal(k, l);
      if Before(k, l) {
        forall j | j in rest ensures Before(k, j) { if j != l { BeforeTrans(k, l, j); } }
        assert LeastOf(k, keys);
      } else {
        assert LeastOf(l, keys);
      }
    } else {
      assert forall j :: j in keys ==> j == k by {
        forall j | j in keys ensures j == k { assert j in rest || j == k; }
      }
      assert LeastOf(k, keys);
    }
  }

  lemma {:induction false} LeastThenRest(k: Text, rest: seq<Text>, keys: set<Text>)
    requires LeastOf(k, keys) && Ascending(rest) && Elements(rest) == keys - {k}
    ensures Ascending([k] + rest) && Elements([k] + rest) == keys
  {
    var all := [k] + rest;
    assert forall x :: x in rest <==> x in Elements(rest);
    assert forall x :: x in all <==> x == k || x in rest;
    forall i, j | 0 <= i < j < |all| ensures Before(all[i], all[j]) {
      assert all[j] == rest[j - 1] && all[j] in Elements(rest);
      if i > 0 { assert all[i] == rest[i - 1]; }
    }
  }

  /** `sorted(keys)`. */
  function SortedKeys(keys: set<Text>): (ks: seq<Text>)
    ensures Ascending(ks) && Elements(ks) == keys
  {
    if exists k :: k in keys then
      LeastExists(keys);
      assert forall j, k :: LeastOf(j, keys) && LeastOf(k, keys) ==> j == k by {
        forall j, k | LeastOf(j, keys) && LeastOf(k, keys) ensures j == k { LeastUnique(j, k, keys); }
      }
      var k :| LeastOf(k, keys);
      var rest := SortedKeys(keys - {k});
      LeastThenRest(k, rest, keys);
      [k] + rest
    else
      []
  }

  // ----- the syntax tree of the canonical text -----

  function DigitsOf(n: nat): Text {
    if n < 10 then [48 + n] else DigitsOf(n / 10) + [48 + n % 10]
  }

  function DigitsValue(ds: Text): int {
    if ds == [] then 0 else 10 * DigitsValue(ds[..|ds| - 1]) + (ds[|ds| - 1] as int - 48)
  }

  lemma {:induction false} DigitsOfOk(n: nat)
    ensures Digits(DigitsOf(n)) && DigitsValue(DigitsOf(n)) == n
    ensures n > 0 ==> DigitsOf(n)[0] != ZERO
    ensures n == 0 ==> DigitsOf(n) == [ZERO]
  {
    if n < 10 {
      assert DigitsOf(n)[..0] == [];
    } else {
      DigitsOfOk(n / 10);
      assert DigitsOf(n)[..|DigitsOf(n)| - 1] == DigitsOf(n / 10);
    }
  }

  function LowerHex(n: nat): Unit { if n < 10 then 48 + n else 87 + n }

  /** How `json` spells one character with `ensure_ascii` off. */
  function PieceOf(c: Unit): Piece {
    if c == QUOTE || c == BACKSLASH then Short(c)
    else if c == 8 then Short(98)
    else if c == 12 then Short(102)
    else if c == 10 then Short(110)
    else if c == 13 then Short(114)
    else if c == 9 then Short(116)
    else if c < 32 then Hex(48, 48, LowerHex(c / 16), LowerHex(c % 16))
    else Plain(c)
  }

  function Pieces(s: Text): seq<Piece> {
    if s == [] then [] else [PieceOf(s[0])] + Pieces(s[1..])
  }

  lemma {:induction false} PiecesDecode(s: Text)
    ensures PiecesOk(Pieces(s)) && Decode(Pieces(s)) == s
  {
    if s != [] {
      PiecesDecode(s[1..]);
      var rest := Pieces(s[1..]);
      assert Pieces(s)[1..] == rest && s == [s[0]] + s[1..];
      assert PieceOk(PieceOf(s[0]));
    }
  }

  function Bare(v: Value): Padded { Padded([], v, []) }

  function Tree(d: Data): Value
    decreases d
  {
    match d
    case Nothing => Literal(2)
    case Truth(b) => Literal(if b then 0 else 1)
    case Whole(i) => Num(Number(i < 0, DigitsOf(if i < 0 then -i else i), [], NoExponent))
    case Float(n) => Num(n)
    case NotFinite => Literal(2)
    case Words(s) => Str(Pieces(s))
    case List(items) => if items == [] then EmptyArray([]) else Array(TreeItems(d, items))
    case Dict(fields) =>
      var ks := SortedKeys(fields.Keys);
      assert forall k :: k in ks ==> k in Elements(ks);
      if ks == [] then EmptyObject([]) else Object(TreeMembers(d, ks))
  }

  function TreeItems(d: Data, items: seq<Data>): Items
    requires items != [] && forall i :: 0 <= i < |items| ==> items[i] < d
    decreases d, |items|
  {
    if |items| == 1 then LastItem(Bare(Tree(items[0])))
    else MoreItems(Bare(Tree(items[0])), TreeItems(d, items[1..]))
  }

  function TreeMembers(d: Data, ks: seq<Text>): Members
    requires d.Dict? && ks != [] && forall k :: k in ks ==> k in d.fields
    decreases d, |ks|
  {
    var key, value := Key([], Pieces(ks[0]), []), Bare(Tree(d.fields[ks[0]]));
    if |ks| == 1 then LastMember(key, value) else MoreMembers(key, value, TreeMembers(d, ks[1..]))
  }

  lemma {:induction false} TreeOk(d: Data)
    requires Printable(d)
    ensures ValueOk(Tree(d)) && DistinctKeys(Tree(d))
    decreases d
  {
    match d
    case Whole(i) => DigitsOfOk(if i < 0 then -i else i);
    case Words(s) => PiecesDecode(s);
    case List(items) => if items != [] { ItemsTreeOk(d, items); }
    case Dict(fields) =>
      var ks := SortedKeys(fields.Keys);
      assert forall k :: k in ks ==> k in Elements(ks);
      if ks != [] {
        MembersTreeOk(d, ks);
        forall i, j | 0 <= i < j < |ks| ensures ks[i] != ks[j] {
          if ks[i] == ks[j] { BeforeIrreflexive(ks[i]); }
        }
      }
    case _ =>
  }

  lemma {:induction false} ItemsTreeOk(d: Data, items: seq<Data>)
    requires items != [] && forall i :: 0 <= i < |items| ==> items[i] < d && Printable(items[i])
    ensures ItemsOk(TreeItems(d, items)) && ItemsDistinct(TreeItems(d, items))
    decreases d, |items|
  {
    TreeOk(items[0]);
    if |items| > 1 { ItemsTreeOk(d, items[1..]); }
  }

  lemma {:induction false} MembersTreeOk(d: Data, ks: seq<Text>)
    requires d.Dict? && Printable(d) && ks != [] && forall k :: k in ks ==> k in d.fields
    ensures var ms := TreeMembers(d, ks); MembersOk(ms) && MembersDistinct(ms) && Keys(ms) == ks
    decreases d, |ks|
  {
    TreeOk(d.fields[ks[0]]);
    PiecesDecode(ks[0]);
    if |ks| > 1 {
      MembersTreeOk(d, ks[1..]);
      assert [ks[0]] + ks[1..] == ks;
    } else {
      assert ks == [ks[0]];
    }
  }

  /** Different data have different trees, whatever order the keys of a dictionary are written in. */
  lemma {:induction false} TreeUnique(d: Data, e: Data)
    requires Printable(d) && Printable(e) && Tree(d) == Tree(e)
    ensures d == e
    decreases d, 2
  {
    hide SortedKeys;
    match d
    case Whole(i) =>
      DigitsOfOk(if i < 0 then -i else i);
      if e.Whole? { DigitsOfOk(if e.i < 0 then -e.i else e.i); }
    case Words(s) =>
      PiecesDecode(s);
      PiecesDecode(e.s);
    case List(items) => if items != [] { ItemsTreeUnique(d, items, e, e.items); }
    case Dict(fields) => DictTreeUnique(d, e);
    case _ =>
  }

  lemma {:induction false} DictTreeUnique(d: Data, e: Data)
    requires d.Dict? && e.Dict? && Printable(d) && Printable(e) && Tree(d) == Tree(e)
    ensures d == e
    decreases d, 1
  {
    var ks, ls := SortedKeys(d.fields.Keys), SortedKeys(e.fields.Keys);
    assert forall k :: k in ks <==> k in Elements(ks);
    assert forall k :: k in ls <==> k in Elements(ls);
    hide SortedKeys;
    if ks != [] {
      MembersTreeUnique(d, ks, e, ls);
    }
    assert d.fields.Keys == Elements(ks) == e.fields.Keys;
    assert forall k :: k in d.fields ==> k in ks;
    assert d.fields == e.fields;
  }

  lemma {:induction false} ItemsTreeUnique(d: Data, items: seq<Data>, e: Data, others: seq<Data>)
    requires items != [] && forall i :: 0 <= i < |items| ==> items[i] < d && Printable(items[i])
    requires others != [] && forall i :: 0 <= i < |others| ==> others[i] < e && Printable(others[i])
    requires TreeItems(d, items) == TreeItems(e, others)
    ensures items == others
    decreases d, 0, |items|
  {
    TreeUnique(items[0], others[0]);
    if |items| > 1 {
      ItemsTreeUnique(d, items[1..], e, others[1..]);
      assert items == [items[0]] + items[1..] && others == [others[0]] + others[1..];
    }
  }

  lemma {:induction false} MembersTreeUnique(d: Data, ks: seq<Text>, e: Data, ls: seq<Text>)
    requires d.Dict? && Printable(d) && ks != [] && forall k :: k in ks ==> k in d.fields
    requires e.Dict? && Printable(e) && ls != [] && forall k :: k in ls ==> k in e.fields
    requires TreeMembers(d, ks) == TreeMembers(e, ls)
    ensures ks == ls && forall k :: k in ks ==> d.fields[k] == e.fields[k]
    decreases d, 0, |ks|
  {
    PiecesDecode(ks[0]);
    PiecesDecode(ls[0]);
    TreeUnique(d.fields[ks[0]], e.fields[ls[0]]);
    assert ks == [ks[0]] + ks[1..] && ls == [ls[0]] + ls[1..];
    if |ks| > 1 { MembersTreeUnique(d, ks[1..], e, ls[1..]); }
  }

  // ----- the bytes -----

  /** UTF-8 (RFC 3629, section 3). */
  function Utf8One(c: Unit): Bytes {
    if c < 0x80 then [c]
    else if c < 0x800 then [0xC0 + c / 64, 0x80 + c % 64]
    else if c < 0x10000 then [0xE0 + c / 4096, 0x80 + c / 64 % 64, 0x80 + c % 64]
    else [0xF0 + c / 262144, 0x80 + c / 4096 % 64, 0x80 + c / 64 % 64, 0x80 + c % 64]
  }

  function Utf8(t: Text): Bytes {
    if t == [] then [] else Utf8One(t[0]) + Utf8(t[1..])
  }

  lemma {:induction false} BaseSixtyFour(c: nat)
    ensures c == 64 * (c / 64) + c % 64
    ensures c / 64 == 64 * (c / 4096) + c / 64 % 64
    ensures c / 4096 == 64 * (c / 262144) + c / 4096 % 64
  {
  }

  /** The first unit tells how many follow. */
  lemma {:induction false} Utf8Length(c: Unit)
    ensures var l := Utf8One(c)[0];
            |Utf8One(c)| == if l < 0x80 then 1 else if l < 0xE0 then 2 else if l < 0xF0 then 3 else 4
  {
  }

  lemma {:induction false} Utf8OneInjective(c: Unit, d: Unit)
    requires Utf8One(c) == Utf8One(d)
    ensures c == d
  {
    BaseSixtyFour(c);
    BaseSixtyFour(d);
    var a, b := Utf8One(c), Utf8One(d);
    assert a[0] == b[0];
    if |a| > 1 { assert a[1] == b[1]; }
    if |a| > 2 { assert a[2] == b[2]; }
    if |a| > 3 { assert a[3] == b[3]; }
  }

  lemma {:induction false} Utf8OneUnique(c: Unit, x: Bytes, d: Unit, y: Bytes)
    requires Utf8One(c) + x == Utf8One(d) + y
    ensures c == d && x == y
  {
    Utf8Length(c);
    Utf8Length(d);
    hide Utf8One;
    var a, b := Utf8One(c), Utf8One(d);
    assert (a + x)[0] == a[0] && (b + y)[0] == b[0];
    assert (a + x)[..|a|] == a && (b + y)[..|b|] == b;
    assert (a + x)[|a|..] == x && (b + y)[|b|..] == y;
    Utf8OneInjective(c, d);
  }

  lemma {:induction false} Utf8Unique(s: Text, t: Text)
    requires Utf8(s) == Utf8(t)
    ensures s == t
  {
    if s != [] && t != [] {
      Utf8OneUnique(s[0], Utf8(s[1..]), t[0], Utf8(t[1..]));
      Utf8Unique(s[1..], t[1..]);
      assert s == [s[0]] + s[1..] && t == [t[0]] + t[1..];
    }
  }

  /** The canonical text: the tree without whitespace, and one final newline. */
  function CanonicalText(d: Data): Text {
    PrintPadded(Padded([], Tree(d), [10]), [])
  }

  /** `_canonical_json`: nothing when the value is not canonical JSON. */
  function Canonical(d: Data): Option<Bytes> {
    if Printable(d) then Some(Utf8(CanonicalText(d))) else None
  }

  /** Canonical printing loses nothing but the order of dictionary keys, which data do not have. */
  lemma {:induction false} CanonicalUnique(d: Data, e: Data)
    requires Canonical(d).Some? && Canonical(d) == Canonical(e)
    ensures d == e
  {
    Utf8Unique(CanonicalText(d), CanonicalText(e));
    TreeOk(d);
    TreeOk(e);
    OneReading(Padded([], Tree(d), [10]), Padded([], Tree(e), [10]));
    TreeUnique(d, e);
  }

  /** What the audit bundle prints, the strict recogniser of the hook accepts. */
  lemma {:induction false} CanonicalIsStrictJson(d: Data)
    requires Printable(d)
    ensures Accepts(CanonicalText(d))
  {
    TreeOk(d);
    FirstUnit(Tree(d), [10] + []);
    NotAMark(Tree(d), [10] + []);
    assert PaddedOk(Padded([], Tree(d), [10]));
    AcceptsStrictJson(CanonicalText(d));
  }

  lemma {:induction false} NotAMark(v: Value, rest: Text)
    requires ValueOk(v)
    ensures !Starts([] + Print(v, rest), BYTE_ORDER_MARK)
  {
    FirstUnit(v, rest);
    ScalarForm(v, rest);
    if v.Literal? { assert Print(v, rest)[0] == Spelling(v.which)[0]; }
  }
}

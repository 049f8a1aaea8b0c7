/**
 Audit bundles: the evidence root of a manifest and the checks that tie an archive to it.

 `hash` stands for SHA-256 and `read` for the strict JSON reader of the bundle.
 */
module EvidenceRoot {
  import opened Prelude
  import opened JsonText
  import opened CanonicalJson
  import opened CanonicalSize

  type Hash = Bytes -> Text
  type Reader = Bytes -> Option<Data>

  /** One archive member, in archive order. */
  datatype Member = Member(name: Text, content: Bytes)

  datatype Payload = Payload(kind: Text, authoritative: bool, content: Bytes)

  function Ascii(s: string): Text {
    seq(|s|, i requires 0 <= i < |s| => s[i] as nat)
  }

  const MANIFEST_PATH := Ascii("audit-manifest.json")
  const SCHEMA := Words(Ascii("1.0"))
  const MAX_ENTRIES: nat := 100000
  const MAX_MANIFEST_BYTES: nat := 8 * 1024 * 1024

  /** `sha256:` and 64 hexadecimal digits. */
  const HASH_LENGTH: nat := 71

  ghost predicate ShaText(hash: Hash) {
    forall x :: |hash(x)| == HASH_LENGTH
  }

  ghost predicate Injective(hash: Hash) {
    forall x, y :: hash(x) == hash(y) ==> x == y
  }

  // ----- what the manifest must look like -----

  predicate HasWords(fields: map<Text, Data>, k: Text) {
    k in fields && fields[k].Words?
  }

  predicate EntryOk(e: Data) {
    && e.Dict?
    && e.fields.Keys == {Ascii("path"), Ascii("kind"), Ascii("authoritative"), Ascii("content_hash"),
          Ascii("size_bytes")}
    && HasWords(e.fields, Ascii("path"))
    && HasWords(e.fields, Ascii("kind")) && e.fields[Ascii("kind")].s != []
    && e.fields[Ascii("authoritative")].Truth?
    && HasWords(e.fields, Ascii("content_hash"))
    && e.fields[Ascii("size_bytes")].Whole? && e.fields[Ascii("size_bytes")].i >= 0
  }

  function PathOf(e: Data): Text
    requires EntryOk(e)
  {
    e.fields[Ascii("path")].s
  }

  predicate ManifestOk(m: Data) {
    && m.Dict?
    && m.fields.Keys == {Ascii("bundle_schema_version"), Ascii("versions"), Ascii("entries"), Ascii("evidence_root"),
          Ascii("limitations")}
    && m.fields[Ascii("bundle_schema_version")] == SCHEMA
    && m.fields[Ascii("versions")].Dict?
    && m.fields[Ascii("limitations")].List?
    && HasWords(m.fields, Ascii("evidence_root"))
    && m.fields[Ascii("entries")].List?
    && var entries := m.fields[Ascii("entries")].items;
    && (forall i :: 0 <= i < |entries| ==> EntryOk(entries[i]))
    && (forall i, j :: 0 <= i < j < |entries| ==> Before(PathOf(entries[i]), PathOf(entries[j])))
  }

  function EntriesOf(m: Data): seq<Data>
    requires ManifestOk(m)
  {
    m.fields[Ascii("entries")].items
  }

  function Paths(entries: seq<Data>): seq<Text>
    requires forall i :: 0 <= i < |entries| ==> EntryOk(entries[i])
  {
    seq(|entries|, i requires 0 <= i < |entries| => PathOf(entries[i]))
  }

  /** The value whose canonical form is hashed: everything in the manifest but the root itself. */
  function Material(versions: Data, entries: Data, limitations: Data): Data {
    Dict(map[Ascii("bundle_schema_version") := SCHEMA, Ascii("versions") := versions,
             Ascii("entries") := entries, Ascii("limitations") := limitations])
  }

  /** `_evidence_root`. */
  function RootOf(hash: Hash, versions: Data, entries: Data, limitations: Data): Option<Text> {
    var text := Canonical(Material(versions, entries, limitations));
    if text.None? then None else Some(hash(text.value))
  }

  predicate ContentOk(hash: Hash, e: Data, content: Bytes)
    requires EntryOk(e)
  {
    |content| == e.fields[Ascii("size_bytes")].i && hash(content) == e.fields[Ascii("content_hash")].s
  }

  // ----- verification -----

  function Names(members: seq<Member>): seq<Text> {
    seq(|members|, i requires 0 <= i < |members| => members[i].name)
  }

  /** The archive lists the manifest first and then every registered entry, in manifest order. */
  predicate LayoutOk(members: seq<Member>, entries: seq<Data>)
    requires forall i :: 0 <= i < |entries| ==> EntryOk(entries[i])
  {
    && |members| == |entries| + 1
    && members[0].name == MANIFEST_PATH
    && forall i :: 0 < i < |members| ==> members[i].name == PathOf(entries[i - 1])
  }

  ghost predicate ManifestAccepted(members: seq<Member>, m: Data, expected: Option<Text>, hash: Hash) {
    && ManifestOk(m)
    && LayoutOk(members, EntriesOf(m))
    && (forall i :: 0 < i < |members| ==> ContentOk(hash, EntriesOf(m)[i - 1], members[i].content))
    && var root := m.fields[Ascii("evidence_root")].s;
    && RootOf(hash, m.fields[Ascii("versions")], m.fields[Ascii("entries")],
          m.fields[Ascii("limitations")]) == Some(root)
    && (expected.Some? ==> root == expected.value)
  }

  /** The archive passes the checks of `verify_bundle` that concern its manifest and contents. */
  ghost predicate Accepted(members: seq<Member>, expected: Option<Text>, hash: Hash, read: Reader) {
    && 0 < |members| <= MAX_ENTRIES
    && |members[0].content| <= MAX_MANIFEST_BYTES
    && (forall i :: 0 < i < |members| ==> members[i].name != MANIFEST_PATH)
    && read(members[0].content).Some?
    && ManifestAccepted(members, read(members[0].content).value, expected, hash)
  }

  lemma {:induction false} MaterialUnique(v: Data, e: Data, l: Data, v': Data, e': Data, l': Data)
    requires Material(v, e, l) == Material(v', e', l')
    ensures v == v' && e == e' && l == l'
  {
    var a, b := Material(v, e, l).fields, Material(v', e', l').fields;
    assert |Ascii("versions")| == 8 && |Ascii("entries")| == 7 && |Ascii("limitations")| == 11;
    assert a[Ascii("versions")] == b[Ascii("versions")];
    assert a[Ascii("entries")] == b[Ascii("entries")];
    assert a[Ascii("limitations")] == b[Ascii("limitations")];
  }

  /** With an injective hash the evidence root determines everything it was computed from. */
  lemma {:induction false} RootUnique(hash: Hash, v: Data, e: Data, l: Data, v': Data, e': Data, l': Data)
    requires Injective(hash)
    requires RootOf(hash, v, e, l).Some? && RootOf(hash, v, e, l) == RootOf(hash, v', e', l')
    ensures v == v' && e == e' && l == l'
  {
    CanonicalUnique(Material(v, e, l), Material(v', e', l'));
    MaterialUnique(v, e, l, v', e', l');
  }

  /**
   Main theorem: two archives that verify against one pinned root have the same manifest and, past
   the manifest member, the same members with the same contents.
   */
  lemma {:induction false} PinnedRootCommits(a: seq<Member>, b: seq<Member>, root: Text, hash: Hash, read: Reader)
    requires Injective(hash)
    requires Accepted(a, Some(root), hash, read) && Accepted(b, Some(root), hash, read)
    ensures read(a[0].content) == read(b[0].content)
    ensures a[1..] == b[1..]
  {
    var m, n := read(a[0].content).value, read(b[0].content).value;
    var x, y := m.fields, n.fields;
    RootUnique(hash, x[Ascii("versions")], x[Ascii("entries")], x[Ascii("limitations")],
               y[Ascii("versions")], y[Ascii("entries")], y[Ascii("limitations")]);
    assert x == y;
    hide RootOf, ManifestOk;
    var entries := EntriesOf(m);
    forall i | 0 < i < |a| ensures a[i] == b[i] {
      assert a[i].name == PathOf(entries[i - 1]);
      assert ContentOk(hash, entries[i - 1], a[i].content) && ContentOk(hash, entries[i - 1], b[i].content);
    }
  }

  /** `verify_bundle`, on the checks modelled here. */
  method Verify(members: seq<Member>, expected: Option<Text>, hash: Hash, read: Reader) returns (valid: bool)
    ensures valid <==> Accepted(members, expected, hash, read)
  {
    if |members| == 0 || |members| > MAX_ENTRIES { return false; }
    if |members[0].content| > MAX_MANIFEST_BYTES { return false; }
    var m := read(members[0].content);
    if m.None? || !ManifestOk(m.value) { return false; }
    var entries := EntriesOf(m.value);
    valid := |members| == |entries| + 1 && members[0].name == MANIFEST_PATH;
    if !valid { return; }
    var i := 1;
    while i < |members|
      invariant 1 <= i <= |members|
      invariant valid <==> forall j :: 0 < j < i ==>
        members[j].name != MANIFEST_PATH && members[j].name == PathOf(entries[j - 1])
        && ContentOk(hash, entries[j - 1], members[j].content)
    {
      var e, member := entries[i - 1], members[i];
      if member.name == MANIFEST_PATH || member.name != PathOf(e) || !ContentOk(hash, e, member.content) {
        valid := false;
      }
      i := i + 1;
    }
    var fields := m.value.fields;
    var root := fields[Ascii("evidence_root")].s;
    if RootOf(hash, fields[Ascii("versions")], fields[Ascii("entries")], fields[Ascii("limitations")]) != Some(root) {
      valid := false;
    }
    if expected.Some? && root != expected.value { valid := false; }
  }

  // ----- export -----

  function EntryFor(path: Text, p: Payload, hash: Hash): Data {
    Dict(map[Ascii("path") := Words(path), Ascii("kind") := Words(p.kind),
        Ascii("authoritative") := Truth(p.authoritative),
             Ascii("content_hash") := Words(hash(p.content)), Ascii("size_bytes") := Whole(|p.content|)])
  }

  function Entries(payloads: map<Text, Payload>, paths: seq<Text>, hash: Hash): seq<Data>
    requires forall p :: p in paths ==> p in payloads
  {
    seq(|paths|, i requires 0 <= i < |paths| => EntryFor(paths[i], payloads[paths[i]], hash))
  }

  function Manifest(versions: Data, entries: Data, root: Text, limitations: Data): Data {
    Dict(map[Ascii("bundle_schema_version") := SCHEMA, Ascii("versions") := versions, Ascii("entries") := entries,
             Ascii("evidence_root") := Words(root), Ascii("limitations") := limitations])
  }

  function SortedPaths(payloads: map<Text, Payload>): (paths: seq<Text>)
    ensures forall p :: p in paths <==> p in payloads
    ensures forall i, j :: 0 <= i < j < |paths| ==> Before(paths[i], paths[j])
  {
    var paths := SortedKeys(payloads.Keys);
    assert forall p :: p in paths <==> p in Elements(paths);
    paths
  }

  /** `export_bundle` once its inputs are read: the archive written and the root reported. */
  function Export(payloads: map<Text, Payload>, versions: Data, limitations: Data, hash: Hash)
    : Option<(seq<Member>, Text)>
  {
    var paths := SortedPaths(payloads);
    var entries := List(Entries(payloads, paths, hash));
    var root := RootOf(hash, versions, entries, limitations);
    if root.None? then None
    else
      var text := Canonical(Manifest(versions, entries, root.value, limitations));
      if text.None? || |text.value| > MAX_MANIFEST_BYTES then None
      else
        Some(([Member(MANIFEST_PATH, text.value)]
              + seq(|paths|, i requires 0 <= i < |paths| => Member(paths[i], payloads[paths[i]].content)), root.value))
  }

  lemma {:induction false} EntryForOk(path: Text, p: Payload, hash: Hash)
    requires p.kind != []
    ensures var e := EntryFor(path, p, hash); EntryOk(e) && PathOf(e) == path && ContentOk(hash, e, p.content)
  {
    assert |Ascii("authoritative")| == 13 && |Ascii("content_hash")| == 12 && |Ascii("size_bytes")| == 10;
    assert |Ascii("path")| == |Ascii("kind")| == 4 && Ascii("path")[0] != Ascii("kind")[0];
  }

  lemma {:induction false} ManifestFields(versions: Data, entries: Data, root: Text, limitations: Data)
    ensures var f := Manifest(versions, entries, root, limitations).fields;
            && f[Ascii("bundle_schema_version")] == SCHEMA
            && f[Ascii("versions")] == versions && f[Ascii("entries")] == entries
            && f[Ascii("evidence_root")] == Words(root) && f[Ascii("limitations")] == limitations
  {
    assert |Ascii("versions")| == 8 && |Ascii("entries")| == 7 && |Ascii("limitations")| == 11;
    assert |Ascii("evidence_root")| == 13 && |Ascii("bundle_schema_version")| == 21;
  }

  lemma {:induction false} EntryTakes(path: Text, p: Payload, hash: Hash)
    requires ShaText(hash)
    ensures Takes(Tree(EntryFor(path, p, hash)), 90)
  {
    var e := EntryFor(path, p, hash);
    var k := Ascii("content_hash");
    assert |k| == 12 && |Ascii("authoritative")| == 13 && |Ascii("size_bytes")| == 10;
    assert |Ascii("path")| == |Ascii("kind")| == 4;
    WordsTake(hash(p.content));
    hide Takes, Tree;
    DictTakes(e.fields, k, HASH_LENGTH + 2);
  }

  lemma {:induction false} EntriesTake(payloads: map<Text, Payload>, paths: seq<Text>, hash: Hash)
    requires ShaText(hash) && forall p :: p in paths ==> p in payloads
    ensures Takes(Tree(List(Entries(payloads, paths, hash))), 91 * |paths|)
  {
    var entries := Entries(payloads, paths, hash);
    hide Takes, Tree;
    forall i | 0 <= i < |entries| ensures Takes(Tree(entries[i]), 90) {
      EntryTakes(paths[i], payloads[paths[i]], hash);
    }
    ListTakes(entries, 90);
  }

  /** The size limit of the manifest keeps the archive within the entry limit, which export does not check. */
  lemma {:induction false} ManifestBoundsEntries(
    payloads: map<Text, Payload>, paths: seq<Text>, versions: Data, root: Text, limitations: Data, hash: Hash)
    requires ShaText(hash) && forall p :: p in paths ==> p in payloads
    requires var text := Canonical(Manifest(versions, List(Entries(payloads, paths, hash)), root, limitations));
             text.Some? && |text.value| <= MAX_MANIFEST_BYTES
    ensures |paths| + 1 <= MAX_ENTRIES
  {
    var entries := List(Entries(payloads, paths, hash));
    var m := Manifest(versions, entries, root, limitations);
    var k := Ascii("entries");
    EntriesTake(payloads, paths, hash);
    ManifestFields(versions, entries, root, limitations);
    hide Takes, Tree, Canonical, Entries, Ascii;
    DictTakes(m.fields, k, 91 * |paths|);
    CanonicalTakes(m, |k| + 91 * |paths| + 5);
  }

  /** Export and verification agree: whatever is exported verifies against the root it reports. */
  lemma {:induction false} ExportVerifies(
    payloads: map<Text, Payload>, versions: Data, limitations: Data, hash: Hash, read: Reader)
    requires Export(payloads, versions, limitations, hash).Some?
    requires versions.Dict? && limitations.List? && MANIFEST_PATH !in payloads
    requires forall p :: p in payloads ==> payloads[p].kind != []
    requires ShaText(hash) && forall d :: Canonical(d).Some? ==> read(Canonical(d).value) == Some(d)
    ensures var (members, root) := Export(payloads, versions, limitations, hash).value;
            Accepted(members, Some(root), hash, read)
  {
    hide Export, EntryOk, ContentOk, RootOf, Canonical, ManifestOk, Manifest, SortedPaths, Entries, Before, PathOf;
    ExportShape(payloads, versions, limitations, hash);
    var (members, root) := Export(payloads, versions, limitations, hash).value;
    var paths := SortedPaths(payloads);
    var entries := Entries(payloads, paths, hash);
    var m := Manifest(versions, List(entries), root, limitations);
    ManifestFields(versions, List(entries), root, limitations);
    ManifestBoundsEntries(payloads, paths, versions, root, limitations, hash);
    EntriesAreOk(payloads, paths, hash);
    ManifestIsOk(versions, entries, root, limitations);
    assert read(members[0].content) == Some(m);
    assert ManifestAccepted(members, m, Some(root), hash);
  }

  lemma {:induction false} ExportShape(payloads: map<Text, Payload>, versions: Data, limitations: Data, hash: Hash)
    requires Export(payloads, versions, limitations, hash).Some?
    ensures var (members, root) := Export(payloads, versions, limitations, hash).value;
            var paths := SortedPaths(payloads);
            var entries := Entries(payloads, paths, hash);
            && RootOf(hash, versions, List(entries), limitations) == Some(root)
            && |members| == |paths| + 1 && |members[0].content| <= MAX_MANIFEST_BYTES
            && members[0].name == MANIFEST_PATH
            && Canonical(Manifest(versions, List(entries), root, limitations)) == Some(members[0].content)
            && forall i :: 0 < i < |members| ==> members[i] == Member(paths[i - 1], payloads[paths[i - 1]].content)
  {
    hide RootOf, Canonical, Manifest, Entries;
  }

  lemma {:induction false} EntriesAreOk(payloads: map<Text, Payload>, paths: seq<Text>, hash: Hash)
    requires forall p :: p in paths ==> p in payloads
    requires forall p :: p in payloads ==> payloads[p].kind != []
    ensures var entries := Entries(payloads, paths, hash);
            |entries| == |paths| && forall i :: 0 <= i < |paths| ==>
              EntryOk(entries[i]) && PathOf(entries[i]) == paths[i]
                  && ContentOk(hash, entries[i], payloads[paths[i]].content)
  {
    var entries := Entries(payloads, paths, hash);
    forall i | 0 <= i < |paths|
      ensures EntryOk(entries[i]) && PathOf(entries[i]) == paths[i]
            && ContentOk(hash, entries[i], payloads[paths[i]].content)
    {
      EntryForOk(paths[i], payloads[paths[i]], hash);
    }
  }

  lemma {:induction false} ManifestIsOk(versions: Data, entries: seq<Data>, root: Text, limitations: Data)
    requires versions.Dict? && limitations.List?
    requires forall i :: 0 <= i < |entries| ==> EntryOk(entries[i])
    requires forall i, j :: 0 <= i < j < |entries| ==> Before(PathOf(entries[i]), PathOf(entries[j]))
    ensures var m := Manifest(versions, List(entries), root, limitations); ManifestOk(m) && EntriesOf(m) == entries
  {
    ManifestFields(versions, List(entries), root, limitations);
    hide EntryOk, Before, PathOf;
  }
}

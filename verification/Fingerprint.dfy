/** The source fingerprint of a publication: the byte stream that is fed to the digest. */
module Fingerprint {
  import opened Text
  import opened Utf8
  import opened Paths
  import opened Walk
  import opened Inventory

  type Bytes = seq<Byte>

  const TWO32 := 0x1_0000_0000
  const TWO64 := 0x1_0000_0000_0000_0000

  /** The generated page is not a source. */
  predicate IsIndex(path: string) {
    path == "index.html"
  }

  function MetadataFile(): string {
    MARKER + "/container.ttl"
  }

  // ---------------------------------------------------------------- 64-bit words

  /** `n & 0xFFFFFFFFFFFFFFFF`, for negative numbers too. */
  function Word(n: int): (w: int)
    ensures 0 <= w < TWO64
  {
    n % TWO64
  }

  /** The low bytes of a number, the lowest first. */
  function LittleEndian(n: int, count: nat): (bytes: Bytes)
    ensures |bytes| == count
    decreases count
  {
    if count == 0 then [] else [n % 256] + LittleEndian(n / 256, count - 1)
  }

  function FromLittleEndian(bytes: Bytes): nat {
    if bytes == [] then 0 else bytes[0] + 256 * FromLittleEndian(bytes[1..])
  }

  function Power256(count: nat): nat {
    if count == 0 then 1 else 256 * Power256(count - 1)
  }

  /** Unpacking gives the number back, as far as it fits. */
  lemma {:induction false} LittleEndianInverts(n: int, count: nat)
    ensures Power256(count) > 0
    ensures FromLittleEndian(LittleEndian(n, count)) == n % Power256(count)
    decreases count
  {
    if count > 0 {
      LittleEndianInverts(n / 256, count - 1);
      assert LittleEndian(n, count)[1..] == LittleEndian(n / 256, count - 1);
      ModuloStep(n, Power256(count - 1));
    }
  }

  lemma ModuloStep(n: int, m: nat)
    requires m > 0
    ensures n % (256 * m) == n % 256 + 256 * (n / 256 % m)
  {
    var q, r := n / 256, n % 256;
    var k, s := q / m, q % m;
    assert n == 256 * q + r && q == m * k + s;
    assert n == (256 * m) * k + (256 * s + r) by {
      assert 256 * (m * k) == (256 * m) * k;
    }
    assert 0 <= 256 * s + r < 256 * m;
    QuotientIsUnique(n, 256 * m, k, 256 * s + r);
  }

  lemma QuotientIsUnique(n: int, d: nat, k: int, r: int)
    requires d > 0 && n == d * k + r && 0 <= r < d
    ensures n % d == r
  {
    var j, t := n / d, n % d;
    var e := j - k;
    assert d * e == r - t by {
      assert d * j + t == d * k + r;
      Distribute(d, j, k);
    }
    if e > 0 {
      AtLeastOnce(d, e);
    } else if e < 0 {
      AtLeastOnce(d, -e);
    }
  }

  lemma Distribute(d: int, j: int, k: int)
    ensures d * (j - k) == d * j - d * k
  {
  }

  lemma {:induction false} AtLeastOnce(d: int, e: int)
    requires d > 0 && e >= 1
    ensures d * e >= d && d * -e <= -d
    decreases e
  {
    if e > 1 {
      AtLeastOnce(d, e - 1);
      Distribute(d, e, 1);
    }
    assert d * -e == -(d * e);
  }

  lemma EightBytesHoldAWord()
    ensures Power256(8) == TWO64
  {
    assert Power256(2) == 0x1_0000;
    assert Power256(4) == TWO32;
    assert Power256(6) == 0x1_0000_0000_0000;
  }

  /** Two numbers pack into the same eight bytes exactly when their words are equal. */
  lemma PackIsExact(a: int, b: int)
    ensures LittleEndian(Word(a), 8) == LittleEndian(Word(b), 8) <==> Word(a) == Word(b)
  {
    EightBytesHoldAWord();
    hide LittleEndian, FromLittleEndian, Power256;
    LittleEndianInverts(Word(a), 8);
    LittleEndianInverts(Word(b), 8);
  }

  /** `(uid << 32 | (gid & 0xFFFFFFFF)) & mask`: the shifted number and the masked one share no bit,
      so the disjunction is a sum. */
  function Owner(uid: int, gid: int): int {
    uid * TWO32 + gid % TWO32
  }

  lemma OwnerParts(uid: int, gid: int)
    ensures Word(Owner(uid, gid)) == uid % TWO32 * TWO32 + gid % TWO32
  {
    var u, k := uid % TWO32, uid / TWO32;
    assert uid == TWO32 * k + u;
    assert Owner(uid, gid) == TWO64 * k + (u * TWO32 + gid % TWO32);
    QuotientIsUnique(Owner(uid, gid), TWO64, k, u * TWO32 + gid % TWO32);
  }

  /** Packing an owner loses nothing but what exceeds 32 bits. */
  lemma OwnerIsExact(u: int, g: int, v: int, h: int)
    ensures Word(Owner(u, g)) == Word(Owner(v, h)) <==> u % TWO32 == v % TWO32 && g % TWO32 == h % TWO32
  {
    OwnerParts(u, g);
    OwnerParts(v, h);
  }

  // ---------------------------------------------------------------- the stream

  datatype Stat = Stat(size: int, mtimeNs: int, ino: int, dev: int, nlink: int, mode: int, uid: int, gid: int)

  function WordsOf(s: Stat): seq<int> {
    [Word(s.size), Word(s.mtimeNs), Word(s.ino), Word(s.dev), Word(s.nlink), Word(s.mode), Word(Owner(s.uid, s.gid))]
  }

  function Pack(words: seq<int>): (bytes: Bytes)
    ensures |bytes| == 8 * |words|
  {
    if words == [] then [] else LittleEndian(words[0], 8) + Pack(words[1..])
  }

  datatype Fed = Fed(path: string, stat: Stat)

  /** What `_update_file_digest` feeds for one file. */
  function Record(e: Fed): Bytes {
    Encode(e.path) + [0] + Pack(WordsOf(e.stat)) + [0]
  }

  function Stream(entries: seq<Fed>): Bytes {
    if entries == [] then [] else Stream(entries[..|entries| - 1]) + Record(entries[|entries| - 1])
  }

  /** The two files agree in every field, as far as the fields are recorded. */
  predicate SameStat(s: Stat, t: Stat) {
    && s.size % TWO64 == t.size % TWO64 && s.mtimeNs % TWO64 == t.mtimeNs % TWO64 && s.ino % TWO64 == t.ino % TWO64
    && s.dev % TWO64 == t.dev % TWO64 && s.nlink % TWO64 == t.nlink % TWO64 && s.mode % TWO64 == t.mode % TWO64
    && s.uid % TWO32 == t.uid % TWO32 && s.gid % TWO32 == t.gid % TWO32
  }

  /** Both states have a stat for the path, and the two agree. */
  predicate AgreeAt(s: string -> Option<Stat>, t: string -> Option<Stat>, path: string) {
    s(path).Some? && t(path).Some? && SameStat(s(path).value, t(path).value)
  }

  predicate SameEntry(a: Fed, b: Fed) {
    a.path == b.path && SameStat(a.stat, b.stat)
  }

  // ---------------------------------------------------------------- feeding the digest

  /** The digest object, seen as everything it has been fed. */
  class Hasher {
    var fed: Bytes

    constructor ()
      ensures fed == []
    {
      fed := [];
    }

    method Update(bytes: Bytes)
      modifies this
      ensures fed == old(fed) + bytes
    {
      fed := fed + bytes;
    }
  }

  /** `_update_file_digest`; a file without a stat is an error. */
  method UpdateFileDigest(hasher: Hasher, stat: Option<Stat>, path: string) returns (ok: bool)
    modifies hasher
    ensures ok <==> stat.Some?
    ensures hasher.fed == if ok then old(hasher.fed) + Record(Fed(path, stat.value)) else old(hasher.fed)
  {
    if stat.None? {
      return false;
    }
    hide *;
    ghost var before := hasher.fed;
    hasher.Update(Encode(path));
    hasher.Update([0]);
    hasher.Update(Pack(WordsOf(stat.value)));
    hasher.Update([0]);
    FedInPieces(before, Fed(path, stat.value));
    ok := true;
  }

  lemma FedInPieces(before: Bytes, e: Fed)
    ensures before + Encode(e.path) + [0] + Pack(WordsOf(e.stat)) + [0] == before + Record(e)
  {
    hide Encode, Pack, WordsOf;
  }

  lemma {:induction false} PackAt(words: seq<int>, k: nat)
    requires k < |words|
    ensures 8 * k + 8 <= |Pack(words)| && Pack(words)[8 * k..8 * k + 8] == LittleEndian(words[k], 8)
  {
    hide LittleEndian;
    var first, rest := LittleEndian(words[0], 8), Pack(words[1..]);
    assert Pack(words) == first + rest;
    if k == 0 {
      assert (first + rest)[..8] == first;
    } else {
      PackAt(words[1..], k - 1);
      var i := 8 * (k - 1);
      assert (first + rest)[8 + i..8 + i + 8] == rest[i..i + 8];
    }
  }

  /** The k-th word is read back from its place. */
  lemma WordAt(words: seq<int>, k: nat)
    requires k < |words| && 0 <= words[k] < TWO64
    ensures 8 * k + 8 <= |Pack(words)| && FromLittleEndian(Pack(words)[8 * k..8 * k + 8]) == words[k]
  {
    EightBytesHoldAWord();
    hide LittleEndian, FromLittleEndian, Power256, Pack;
    PackAt(words, k);
    LittleEndianInverts(words[k], 8);
  }

  /** The k-th packed number that follows the first `end` bytes and a zero byte. */
  function FieldAt(fed: Bytes, end: nat, k: nat): int
    requires end + 8 * k + 9 <= |fed|
  {
    FromLittleEndian(fed[end + 8 * k + 1..end + 8 * k + 9])
  }

  /** A record is the path, a zero byte, the seven fields as far as eight bytes hold them, in this
      order and the lowest byte first, and a zero byte. */
  lemma RecordFields(path: string, s: Stat)
    ensures
      var fed, end := Record(Fed(path, s)), |Encode(path)|;
      && |fed| == end + 58 && Encode(path) == fed[..end] && fed[end] == 0 && fed[end + 57] == 0
      && FieldAt(fed, end, 0) == s.size % TWO64 && FieldAt(fed, end, 1) == s.mtimeNs % TWO64
      && FieldAt(fed, end, 2) == s.ino % TWO64 && FieldAt(fed, end, 3) == s.dev % TWO64
      && FieldAt(fed, end, 4) == s.nlink % TWO64 && FieldAt(fed, end, 5) == s.mode % TWO64
      && FieldAt(fed, end, 6) == s.uid % TWO32 * TWO32 + s.gid % TWO32
  {
    RecordWords(path, s);
    OwnerParts(s.uid, s.gid);
    hide FieldAt, Record, Encode, Owner;
  }

  lemma RecordWords(path: string, s: Stat)
    ensures
      var fed, end := Record(Fed(path, s)), |Encode(path)|;
      && |fed| == end + 58 && Encode(path) == fed[..end] && fed[end] == 0 && fed[end + 57] == 0
      && forall k :: 0 <= k < 7 ==> FieldAt(fed, end, k) == WordsOf(s)[k]
  {
    var words, packed := WordsOf(s), Pack(WordsOf(s));
    var fed, end := Record(Fed(path, s)), |Encode(path)|;
    RecordIs(path, s);
    hide *;
    SlicesOf(Encode(path), packed, fed);
    forall k | 0 <= k < 7 ensures FieldAt(fed, end, k) == words[k] {
      WordAt(words, k);
      FieldOf(fed, end, k, packed);
    }
  }

  lemma RecordIs(path: string, s: Stat)
    ensures Record(Fed(path, s)) == Encode(path) + [0] + Pack(WordsOf(s)) + [0]
    ensures |WordsOf(s)| == 7 && |Pack(WordsOf(s))| == 56
    ensures forall k :: 0 <= k < 7 ==> 0 <= WordsOf(s)[k] < TWO64
  {
    hide Pack, Encode;
  }

  lemma FieldOf(fed: Bytes, end: nat, k: nat, packed: Bytes)
    requires k < 7 && |packed| == 56 && |fed| == end + 58
    requires fed[end + 8 * k + 1..end + 8 * k + 9] == packed[8 * k..8 * k + 8]
    ensures FieldAt(fed, end, k) == FromLittleEndian(packed[8 * k..8 * k + 8])
  {
    hide FromLittleEndian;
  }

  lemma SlicesOf(front: Bytes, packed: Bytes, fed: Bytes)
    requires |packed| == 56 && fed == front + [0] + packed + [0]
    ensures |fed| == |front| + 58 && fed[..|front|] == front && fed[|front|] == 0 && fed[|front| + 57] == 0
    ensures forall k :: 0 <= k < 7 ==>
      fed[|front| + 8 * k + 1..|front| + 8 * k + 9] == packed[8 * k..8 * k + 8]
  {
  }

  /** The files that enter the fingerprint, in the order of the inventory. */
  function Sources(paths: seq<string>): seq<string> {
    if paths == [] then []
    else Sources(paths[..|paths| - 1]) + if IsIndex(paths[|paths| - 1]) then [] else [paths[|paths| - 1]]
  }

  /** Every file to be fed has a stat. */
  predicate AllKnown(stat: string -> Option<Stat>, paths: seq<string>) {
    forall i :: 0 <= i < |paths| ==> stat(paths[i]).Some?
  }

  function EntriesOf(stat: string -> Option<Stat>, paths: seq<string>): seq<Fed>
    requires AllKnown(stat, paths)
  {
    seq(|paths|, i requires 0 <= i < |paths| => Fed(paths[i], stat(paths[i]).value))
  }

  /** What the fingerprint of a container is computed from. */
  function FilesFed(inventory: seq<string>): seq<string> {
    [MetadataFile()] + Sources(inventory)
  }

  /** `calculate_source_fingerprint`, up to the digest of the stream. */
  method CalculateSourceFingerprint(tree: Node, probe: string -> bool, stat: string -> Option<Stat>)
    returns (r: Result<Bytes>)
    requires WellFormedTree(tree)
    ensures r.Ok? ==> exists inventory ::
      && IsInventory(tree, probe, inventory) && AllKnown(stat, FilesFed(inventory))
      && r.value == Stream(EntriesOf(stat, FilesFed(inventory)))
    ensures r.Err? ==> tree.File? || forall inventory ::
      IsInventory(tree, probe, inventory) ==> !AllKnown(stat, FilesFed(inventory))
    ensures r.Ok? ==> exists resources ::
      && Increasing(resources)
      && (forall path :: path in resources <==> IsResource(tree, probe, path) && path != "index.html")
      && AllKnown(stat, [".__ontobdc__/container.ttl"] + resources)
      && r.value == Stream(EntriesOf(stat, [".__ontobdc__/container.ttl"] + resources))
    ensures r.Err? <==>
      || tree.File? || stat(".__ontobdc__/container.ttl").None?
      || exists path :: IsResource(tree, probe, path) && path != "index.html" && stat(path).None?
  {
    if tree.File? {
      return Err("the container path is not a directory");
    }
    var listed := ListResourcePaths(tree, probe);
    var inventory := listed.value;
    forall other | IsInventory(tree, probe, other) ensures other == inventory {
      InventoryUnique(tree, probe, other, inventory);
    }
    SourcesAre(inventory);
    MetadataName();
    KnownSources(stat, inventory);
    hide IsInventory, IsResource, Increasing, Record, Stream, EntriesOf, AllKnown, Sources, MetadataFile;
    var hasher := new Hasher();
    var ok := FeedFiles(hasher, stat, inventory);
    if !ok {
      return Err("the metadata is missing or a resource has no stat");
    }
    r := Ok(hasher.fed);
  }

  /** The metadata file and the resources, in the order in which they are fed. */
  method FeedFiles(hasher: Hasher, stat: string -> Option<Stat>, inventory: seq<string>) returns (ok: bool)
    requires hasher.fed == []
    modifies hasher
    ensures ok <==> AllKnown(stat, FilesFed(inventory))
    ensures ok ==> hasher.fed == Stream(EntriesOf(stat, FilesFed(inventory)))
  {
    ok := UpdateFileDigest(hasher, stat(MetadataFile()), MetadataFile());
    FirstFile(stat, inventory);
    if !ok {
      UnknownFile(stat, FilesFed(inventory), MetadataFile());
      return;
    }
    hide *;
    for i := 0 to |inventory|
      invariant AllKnown(stat, FilesFed(inventory[..i]))
      invariant hasher.fed == Stream(EntriesOf(stat, FilesFed(inventory[..i])))
    {
      SourcesStep(inventory, i);
      if !IsIndex(inventory[i]) {
        ok := UpdateFileDigest(hasher, stat(inventory[i]), inventory[i]);
        if !ok {
          SourcesContain(inventory, i);
          UnknownFile(stat, FilesFed(inventory), inventory[i]);
          return;
        }
        FeedOne(stat, FilesFed(inventory[..i]), inventory[i]);
      }
    }
    assert inventory[..|inventory|] == inventory;
    ok := true;
  }

  lemma MetadataName()
    ensures MetadataFile() == ".__ontobdc__/container.ttl"
  {
  }

  lemma {:induction false} SourcesAre(inventory: seq<string>)
    requires Increasing(inventory)
    ensures Increasing(Sources(inventory))
    ensures forall path :: path in Sources(inventory) <==> path in inventory && path != "index.html"
  {
    hide Less;
    if inventory != [] {
      var n := |inventory| - 1;
      SourcesAre(inventory[..n]);
      assert inventory == inventory[..n] + [inventory[n]];
      forall path | path in Sources(inventory[..n]) ensures Less(path, inventory[n]) {
        var i :| 0 <= i < n && inventory[i] == path;
      }
    }
  }

  lemma KnownSources(stat: string -> Option<Stat>, inventory: seq<string>)
    requires forall path :: path in Sources(inventory) <==> path in inventory && path != "index.html"
    ensures AllKnown(stat, FilesFed(inventory)) <==>
      stat(MetadataFile()).Some? && forall path :: path in inventory && path != "index.html" ==> stat(path).Some?
  {
    var fed := FilesFed(inventory);
    hide Sources, MetadataFile;
    assert fed[0] == MetadataFile() && fed[1..] == Sources(inventory);
    if AllKnown(stat, fed) {
      forall path | path in inventory && path != "index.html" ensures stat(path).Some? {
        assert path in Sources(inventory);
      }
    }
    if stat(MetadataFile()).Some? && forall path :: path in inventory && path != "index.html" ==> stat(path).Some? {
      forall i | 0 <= i < |fed| ensures stat(fed[i]).Some? {
        assert i > 0 ==> fed[i] in Sources(inventory);
      }
    }
  }

  lemma FirstFile(stat: string -> Option<Stat>, inventory: seq<string>)
    ensures MetadataFile() in FilesFed(inventory)
    ensures stat(MetadataFile()).Some? ==>
      && AllKnown(stat, FilesFed(inventory[..0]))
      && Stream(EntriesOf(stat, FilesFed(inventory[..0]))) == Record(Fed(MetadataFile(), stat(MetadataFile()).value))
  {
    hide Record;
    assert FilesFed(inventory)[0] == MetadataFile();
    assert FilesFed(inventory[..0]) == [MetadataFile()];
    if stat(MetadataFile()).Some? {
      var entries := EntriesOf(stat, [MetadataFile()]);
      assert entries[..0] == [];
      assert [] + Record(entries[0]) == Record(entries[0]);
    }
  }

  lemma UnknownFile(stat: string -> Option<Stat>, paths: seq<string>, path: string)
    requires path in paths && stat(path).None?
    ensures !AllKnown(stat, paths)
  {
  }

  lemma FeedOne(stat: string -> Option<Stat>, paths: seq<string>, path: string)
    requires AllKnown(stat, paths) && stat(path).Some?
    ensures AllKnown(stat, paths + [path])
    ensures Stream(EntriesOf(stat, paths + [path]))
         == Stream(EntriesOf(stat, paths)) + Record(Fed(path, stat(path).value))
  {
    var entries := EntriesOf(stat, paths + [path]);
    assert entries[..|entries| - 1] == EntriesOf(stat, paths);
  }

  lemma SourcesStep(inventory: seq<string>, i: nat)
    requires i < |inventory|
    ensures IsIndex(inventory[i]) ==> FilesFed(inventory[..i + 1]) == FilesFed(inventory[..i])
    ensures !IsIndex(inventory[i]) ==> FilesFed(inventory[..i + 1]) == FilesFed(inventory[..i]) + [inventory[i]]
  {
    assert inventory[..i + 1][..i] == inventory[..i];
  }

  lemma {:induction false} SourcesContain(inventory: seq<string>, i: nat)
    requires i < |inventory| && !IsIndex(inventory[i])
    ensures inventory[i] in FilesFed(inventory)
    decreases |inventory|
  {
    if i < |inventory| - 1 {
      SourcesContain(inventory[..|inventory| - 1], i);
    }
  }

  // ---------------------------------------------------------------- unique decodability

  ghost predicate IsNulFree(path: string) {
    0 as char !in path
  }

  lemma SplitAtZero(a: Bytes, x: Bytes, b: Bytes, y: Bytes)
    requires 0 !in a && 0 !in b && a + [0] + x == b + [0] + y
    ensures a == b && x == y
  {
    var whole := a + [0] + x;
    forall i | 0 <= i < |a| ensures whole[i] in a { }
    forall i | 0 <= i < |b| ensures whole[i] in b { }
    assert whole[|a|] == 0 && whole[|b|] == 0;
    assert a == whole[..|a|] && b == whole[..|b|];
    assert x == whole[|a| + 1..] && y == whole[|b| + 1..];
  }

  lemma {:induction false} PackExact(a: seq<int>, b: seq<int>)
    requires |a| == |b| && forall i :: 0 <= i < |a| ==> 0 <= a[i] < TWO64 && 0 <= b[i] < TWO64
    ensures Pack(a) == Pack(b) <==> a == b
  {
    hide LittleEndian;
    if a != [] && Pack(a) == Pack(b) {
      assert LittleEndian(a[0], 8) == Pack(a)[..8] == Pack(b)[..8] == LittleEndian(b[0], 8);
      assert Pack(a[1..]) == Pack(a)[8..] == Pack(b)[8..] == Pack(b[1..]);
      PackIsExact(a[0], b[0]);
      PackExact(a[1..], b[1..]);
      assert a == [a[0]] + a[1..] && b == [b[0]] + b[1..];
    }
  }

  lemma WordsAreExact(s: Stat, t: Stat)
    ensures Pack(WordsOf(s)) == Pack(WordsOf(t)) <==> SameStat(s, t)
  {
    PackExact(WordsOf(s), WordsOf(t));
    OwnerIsExact(s.uid, s.gid, t.uid, t.gid);
    hide Pack, Owner;
    var a, b := WordsOf(s), WordsOf(t);
    assert a == b <==> forall i :: 0 <= i < 7 ==> a[i] == b[i];
    assert a[0] == s.size % TWO64 && a[1] == s.mtimeNs % TWO64 && a[2] == s.ino % TWO64 && a[3] == s.dev % TWO64;
  }

  /** A record that starts a stream is determined by the stream. */
  lemma RecordIsPrefixFree(a: Fed, b: Fed, x: Bytes, y: Bytes)
    requires IsNulFree(a.path) && IsNulFree(b.path) && Record(a) + x == Record(b) + y
    ensures SameEntry(a, b) && x == y
  {
    var p, q := Pack(WordsOf(a.stat)), Pack(WordsOf(b.stat));
    RecordParts(a, x);
    RecordParts(b, y);
    hide Record, Encode, Pack, WordsOf, SameStat;
    EncodeAscii(a.path, 0);
    EncodeAscii(b.path, 0);
    SplitAtZero(Encode(a.path), p + [0] + x, Encode(b.path), q + [0] + y);
    EncodeInjective(a.path, b.path);
    TailIsExact(p, x, q, y);
    WordsAreExact(a.stat, b.stat);
  }

  lemma RecordParts(e: Fed, x: Bytes)
    ensures Record(e) + x == Encode(e.path) + [0] + (Pack(WordsOf(e.stat)) + [0] + x)
    ensures |Pack(WordsOf(e.stat))| == 56
  {
  }

  lemma TailIsExact(p: Bytes, x: Bytes, q: Bytes, y: Bytes)
    requires |p| == |q| && p + [0] + x == q + [0] + y
    ensures p == q && x == y
  {
    var whole := p + [0] + x;
    assert p == whole[..|p|] && q == whole[..|q|];
    assert x == whole[|p| + 1..] && y == whole[|q| + 1..];
  }

  ghost predicate SameEntries(a: seq<Fed>, b: seq<Fed>) {
    |a| == |b| && forall i :: 0 <= i < |a| ==> SameEntry(a[i], b[i])
  }

  lemma {:induction false} StreamFromFront(entries: seq<Fed>)
    requires entries != []
    ensures Stream(entries) == Record(entries[0]) + Stream(entries[1..])
  {
    hide Record;
    var n := |entries| - 1;
    if n == 0 {
      assert entries[..0] == [] && entries[1..] == [];
    } else {
      StreamFromFront(entries[..n]);
      assert entries[1..][..n - 1] == entries[..n][1..];
    }
  }

  lemma SameRecord(a: Fed, b: Fed)
    requires SameEntry(a, b)
    ensures Record(a) == Record(b)
  {
    WordsAreExact(a.stat, b.stat);
  }

  /** Two inventories feed the same bytes exactly when they list the same paths in the same order
      with the same recorded fields. */
  lemma {:induction false} StreamIsExact(a: seq<Fed>, b: seq<Fed>)
    requires forall e :: e in a || e in b ==> IsNulFree(e.path)
    ensures Stream(a) == Stream(b) <==> SameEntries(a, b)
    decreases |a|
  {
    hide Record, SameEntry, IsNulFree, Stream;
    if a == [] || b == [] {
      StreamEmpty(a);
      StreamEmpty(b);
    } else {
      StreamFromFront(a);
      StreamFromFront(b);
      StreamIsExact(a[1..], b[1..]);
      if Stream(a) == Stream(b) {
        RecordIsPrefixFree(a[0], b[0], Stream(a[1..]), Stream(b[1..]));
      }
      if SameEntries(a, b) {
        SameRecord(a[0], b[0]);
        assert SameEntries(a[1..], b[1..]);
      }
    }
  }

  lemma StreamEmpty(a: seq<Fed>)
    ensures Stream(a) == [] <==> a == []
  {
  }

  /** Two states of a container, with the inventories `a` and `b` of which `p` and `q` are fed, feed the
      same bytes exactly when they differ at most in the generated page, and no recorded field of another
      file or of the metadata differs. */
  lemma FingerprintIsExact(
    a: seq<string>, p: seq<string>, s: string -> Option<Stat>,
    b: seq<string>, q: seq<string>, t: string -> Option<Stat>)
    requires Increasing(p) && forall path :: path in p <==> path in a && path != "index.html"
    requires Increasing(q) && forall path :: path in q <==> path in b && path != "index.html"
    requires AllKnown(s, [".__ontobdc__/container.ttl"] + p) && AllKnown(t, [".__ontobdc__/container.ttl"] + q)
    requires forall path :: path in a || path in b ==> IsNulFree(path)
    ensures
      var metadata := ".__ontobdc__/container.ttl";
      Stream(EntriesOf(s, [metadata] + p)) == Stream(EntriesOf(t, [metadata] + q)) <==>
      && (forall path :: path != "index.html" ==> (path in a <==> path in b))
      && AgreeAt(s, t, metadata) && forall path :: path in a && path != "index.html" ==> AgreeAt(s, t, path)
  {
    var metadata := ".__ontobdc__/container.ttl";
    var x, y := [metadata] + p, [metadata] + q;
    assert IsNulFree(metadata);
    FedAreNulFree(metadata, p);
    FedAreNulFree(metadata, q);
    AgreeEverywhere(metadata, p, s, t);
    SamePaths(a, p, b, q);
    hide AgreeAt, Stream, IsNulFree, Increasing;
    StreamIsExact(EntriesOf(s, x), EntriesOf(t, y));
    EntriesAgree(s, x, t, y);
    assert p == x[1..] && q == y[1..];
  }

  /** The fed lists are the same exactly when the inventories differ at most in the generated page. */
  lemma SamePaths(a: seq<string>, p: seq<string>, b: seq<string>, q: seq<string>)
    requires Increasing(p) && forall path :: path in p <==> path in a && path != "index.html"
    requires Increasing(q) && forall path :: path in q <==> path in b && path != "index.html"
    ensures p == q <==> forall path :: path != "index.html" ==> (path in a <==> path in b)
  {
    if forall path :: path != "index.html" ==> (path in a <==> path in b) {
      IncreasingUnique(p, q);
    }
    if p == q {
      forall path | path != "index.html" ensures path in a <==> path in b {
        assert path in p <==> path in q;
      }
    }
  }

  lemma EntriesAgree(s: string -> Option<Stat>, x: seq<string>, t: string -> Option<Stat>, y: seq<string>)
    requires AllKnown(s, x) && AllKnown(t, y)
    ensures SameEntries(EntriesOf(s, x), EntriesOf(t, y)) <==>
      x == y && forall i :: 0 <= i < |x| ==> AgreeAt(s, t, x[i])
  {
    hide SameStat;
    if SameEntries(EntriesOf(s, x), EntriesOf(t, y)) {
      forall i | 0 <= i < |x| ensures x[i] == y[i] && AgreeAt(s, t, x[i]) {
        assert SameEntry(EntriesOf(s, x)[i], EntriesOf(t, y)[i]);
      }
      assert x == y;
    }
  }

  lemma AgreeEverywhere(first: string, rest: seq<string>, s: string -> Option<Stat>, t: string -> Option<Stat>)
    ensures (forall i :: 0 <= i < |[first] + rest| ==> AgreeAt(s, t, ([first] + rest)[i])) <==>
      AgreeAt(s, t, first) && forall path :: path in rest ==> AgreeAt(s, t, path)
  {
    hide AgreeAt;
    var x := [first] + rest;
    assert x[0] == first;
    forall path | path in rest ensures exists i :: 0 < i < |x| && x[i] == path {
      var k :| 0 <= k < |rest| && rest[k] == path;
      assert x[k + 1] == path;
    }
    forall i | 0 < i < |x| ensures x[i] in rest {
      assert x[i] == rest[i - 1];
    }
  }

  lemma FedAreNulFree(first: string, rest: seq<string>)
    requires IsNulFree(first) && forall path :: path in rest ==> IsNulFree(path)
    ensures forall path :: path in [first] + rest ==> IsNulFree(path)
  {
    hide IsNulFree;
  }
}

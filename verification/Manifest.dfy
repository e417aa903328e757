/** The Data Package synchroniser: one sync of a descriptor with a container's inventory. */
module Manifest {
  import opened Text
  import opened Paths
  import opened KeyCodec
  import opened PathText
  import opened Walk
  import opened Inventory

  datatype Json = Null | Bool(b: bool) | Num(n: real) | Str(s: string) | Arr(items: seq<Json>) | Obj(fields: Record)

  /** The member names of an object; those the synchroniser works with have a constructor each. */
  datatype Key = NAME | PATH | BYTES | FORMAT | MEDIATYPE | RESOURCES | Other(text: string)

  type Record = map<Key, Json>

  /** What the synchroniser asks of the machine it runs on. */
  datatype Host = Host(
    container: Path,                     // the resolved container path
    probe: string -> bool,               // has a parser for this format
    home: string -> Option<Path>,        // the directory a "~" component stands for
    fileUri: string -> Option<Path>,     // the path inside a "file:" URI
    text: Json -> string,                // `str` of a value that is not a string
    mediaType: string -> Option<string>,
    digest: string -> string,
    size: string -> nat)

  // ---------------------------------------------------------------- where a resource lies

  datatype Place = Failed | External | At(path: string)

  function Below(container: Path, p: Path): Place {
    if Inside(p, container) then At(Posix(RelativeTo(p, container))) else External
  }

  /** Where a stripped path text leads, read from the marker directory; `expands` says whether a
      leading tilde stands for a home directory. */
  function Locate(host: Host, text: string, expands: bool): Place {
    var parts := Components(text);
    if expands && HasTilde(text) then
      match host.home(parts[0])
      case None => Failed
      case Some(home) => Below(host.container, Follow(home, parts[1..]))
    else if IsAbsolute(text) then
      if HasForeignRoot(text) then External else Below(host.container, Follow([], parts))
    else if Scheme(text) == "file" then
      match host.fileUri(text)
      case None => Failed
      case Some(p) => Below(host.container, p)
    else if Scheme(text) != "" then External
    else Below(host.container, Follow(host.container + [MARKER], parts))
  }

  /** `expanduser` changes the path. */
  predicate HasTilde(text: string) {
    !IsAbsolute(text) && Components(text) != [] && '~' == HeadOf(Components(text)[0])
  }

  function HeadOf(s: string): char {
    if s == "" then ' ' else s[0]
  }

  /** The path text of a resource, if it has one that is not blank. */
  function PathOf(r: Record): Option<string> {
    if PATH in r && r[PATH].Str? && Strip(r[PATH].s) != "" then Some(Strip(r[PATH].s)) else None
  }

  /** `_managed_container_path`. */
  function ManagedPath(host: Host, r: Record): Place {
    match PathOf(r)
    case None => External
    case Some(text) => Locate(host, text, true)
  }

  // ---------------------------------------------------------------- building one resource

  predicate IsTrue(j: Json) {
    match j
    case Null => false
    case Bool(b) => b
    case Num(n) => n != 0.0
    case Str(s) => s != ""
    case Arr(items) => |items| > 0
    case Obj(fields) => |fields| > 0
  }

  function TextOf(host: Host, j: Json): string {
    if j.Str? then j.s else host.text(j)
  }

  predicate IsSlugChar(c: char) {
    'a' <= c <= 'z' || '0' <= c <= '9'
  }

  /** `re.sub("[^a-z0-9]+", "_", s)`; `inRun` says that the character before is already replaced. */
  function Slug(s: string, inRun: bool): string {
    if s == "" then ""
    else if IsSlugChar(s[0]) then [s[0]] + Slug(s[1..], false)
    else (if inRun then "" else "_") + Slug(s[1..], true)
  }

  /** `strip("_")`. */
  function TrimLeft(s: string): string {
    if s != "" && s[0] == '_' then TrimLeft(s[1..]) else s
  }

  function TrimRight(s: string): string {
    if s != "" && s[|s| - 1] == '_' then TrimRight(s[..|s| - 1]) else s
  }

  /** `with_suffix("")`. */
  function WithoutSuffix(name: string): string {
    var i := LastDot(name);
    if 0 < i < |name| - 1 then name[..i] else name
  }

  /** `_resource_name`. */
  function ResourceName(host: Host, rel: string): string {
    var p := Components(rel);
    var stem := if p == [] then "." else Join(p[..|p| - 1] + [WithoutSuffix(p[|p| - 1])]);
    var slug := TrimRight(TrimLeft(Slug(LowerAll(stem), false)));
    var name := if slug == "" then "resource" else slug;
    (if |name| > 80 then name[|name| - 80..] else name) + "_" + host.digest(rel)
  }

  /** Letters and digits, as in a hexadecimal digest. */
  predicate IsHex(t: string) {
    t != "" && forall c :: c in t ==> IsSlugChar(c)
  }

  ghost predicate HexDigest(host: Host) {
    forall s :: IsHex(host.digest(s))
  }

  /** `os.path.relpath` on components. */
  function CommonLength(a: Path, b: Path): (n: nat)
    ensures n <= |a| && n <= |b|
  {
    if a != [] && b != [] && a[0] == b[0] then 1 + CommonLength(a[1..], b[1..]) else 0
  }

  function Ups(n: nat): Path {
    if n == 0 then [] else [".."] + Ups(n - 1)
  }

  function RelPath(target: Path, start: Path): Path {
    var n := CommonLength(target, start);
    Ups(|start| - n) + target[n..]
  }

  predicate IsNamed(base: Record) {
    NAME in base && IsTrue(base[NAME])
  }

  function GivenName(host: Host, base: Record): string {
    if NAME in base then TextOf(host, base[NAME]) else ""
  }

  function Pick(named: bool, given: string, generated: string): string {
    if named then given else generated
  }

  function NameText(host: Host, rel: string, base: Record): string {
    Pick(IsNamed(base), GivenName(host, base), ResourceName(host, rel))
  }

  function FormatText(rel: string): string {
    if Components(rel) == [] then "" else FormatOf(Components(rel))
  }

  function WithField(r: Record, key: Key, value: Option<Json>): Record {
    match value
    case None => r - {key}
    case Some(j) => r[key := j]
  }

  /** The five members that the synchroniser owns; the others of `base` are kept. */
  function WithFields(base: Record, name: Json, link: Json, bytes: Json, fmt: Option<Json>, media: Option<Json>)
    : Record
  {
    WithField(WithField(base[NAME := name][PATH := link][BYTES := bytes], FORMAT, fmt), MEDIATYPE, media)
  }

  function NotEmpty(s: string): Option<Json> {
    if s == "" then None else Some(Str(s))
  }

  function LinkTo(host: Host, rel: string): string {
    Posix(RelPath(host.container + Components(rel), host.container + [MARKER]))
  }

  function MediaText(host: Host, rel: string): string {
    var p := Components(rel);
    match host.mediaType(if p == [] then "" else p[|p| - 1])
    case None => ""
    case Some(m) => m
  }

  /** `_build_local_descriptor`. */
  function BuildLocal(host: Host, rel: string, base: Record): Record {
    WithFields(base, Str(Strip(NameText(host, rel, base))), Str(LinkTo(host, rel)), Num(host.size(rel) as real),
               NotEmpty(FormatText(rel)), NotEmpty(MediaText(host, rel)))
  }

  // ---------------------------------------------------------------- sorting out what is there

  /** The existing resources by path, the external ones in order, and how many are dropped. */
  datatype Sorted = Sorted(existing: map<string, Record>, external: seq<Record>, removed: nat)

  /** The format recorded for a resource has a parser. */
  predicate IsReadable(host: Host, r: Record) {
    Supports(host.probe, if FORMAT in r then TextOf(host, r[FORMAT]) else "")
  }

  /** One resource more. */
  function SortOne(host: Host, inventory: set<string>, s: Sorted, r: Record): Result<Sorted> {
    SortAt(s, r, ManagedPath(host, r), IsReadable(host, r), inventory)
  }

  function SortAt(s: Sorted, r: Record, place: Place, readable: bool, inventory: set<string>): Result<Sorted> {
    match place
    case Failed => Err("a path cannot be resolved")
    case External => Ok(s.(external := s.external + [r]))
    case At(path) =>
      if !readable || path !in inventory || path in s.existing
      then Ok(s.(removed := s.removed + 1))
      else Ok(s.(existing := s.existing[path := r]))
  }

  function SortOut(host: Host, inventory: set<string>, rs: seq<Record>): Result<Sorted> {
    if rs == [] then Ok(Sorted(map[], [], 0))
    else
      match SortOut(host, inventory, rs[..|rs| - 1])
      case Err(e) => Err(e)
      case Ok(s) => SortOne(host, inventory, s, rs[|rs| - 1])
  }

  function Base(existing: map<string, Record>, rel: string): Record {
    if rel in existing then existing[rel] else map[]
  }

  /** The local resources after a sync, and the two counters of the loop that builds them. */
  datatype Built = Built(resources: seq<Record>, added: nat, updated: nat)

  function BuildOne(host: Host, existing: map<string, Record>, b: Built, rel: string): Built {
    if !Supports(host.probe, FormatText(rel)) then b
    else
      var r := BuildLocal(host, rel, Base(existing, rel));
      Built(b.resources + [r],
            b.added + (if rel in existing then 0 else 1),
            b.updated + (if rel in existing && r != existing[rel] then 1 else 0))
  }

  function BuildAll(host: Host, existing: map<string, Record>, inventory: seq<string>): Built {
    if inventory == [] then Built([], 0, 0)
    else
      BuildOne(host, existing, BuildAll(host, existing, inventory[..|inventory| - 1]), inventory[|inventory| - 1])
  }

  // ---------------------------------------------------------------- the descriptor

  /** What the descriptor file holds. */
  datatype OnDisk = Absent | Unreadable | Holds(json: Json)

  function LoadDescriptor(file: OnDisk): Result<Record> {
    match file
    case Absent => Ok(map[])
    case Unreadable => Err("could not read the descriptor")
    case Holds(j) => if j.Obj? then Ok(j.fields) else Err("invalid descriptor")
  }

  function ObjectsOf(items: seq<Json>): seq<Record> {
    if items == [] then []
    else (if items[0].Obj? then [items[0].fields] else []) + ObjectsOf(items[1..])
  }

  /** `_resource_descriptors`. */
  function ResourcesOf(d: Record): Result<seq<Record>> {
    if RESOURCES !in d || d[RESOURCES].Null? then Ok([])
    else if !d[RESOURCES].Arr? then Err("'resources' must be a list")
    else Ok(ObjectsOf(d[RESOURCES].items))
  }

  function AsItems(rs: seq<Record>): seq<Json> {
    seq(|rs|, i requires 0 <= i < |rs| => Obj(rs[i]))
  }

  function WithResources(d: Record, rs: seq<Record>): Record {
    (if NAME in d then d else d[NAME := Str("ontobdc_container")])[RESOURCES := Arr(AsItems(rs))]
  }

  function AsSet(paths: seq<string>): set<string> {
    set p | p in paths
  }

  datatype Report = Report(resources: nat, locals: nat, added: nat, updated: nat, removed: nat)

  datatype Synced = Synced(descriptor: Record, report: Report)

  /** What one sync makes of a descriptor and an inventory. */
  function Sync(host: Host, inventory: seq<string>, d: Record): Result<Synced> {
    match ResourcesOf(d)
    case Err(e) => Err(e)
    case Ok(rs) =>
      match SortOut(host, AsSet(inventory), rs)
      case Err(e) => Err(e)
      case Ok(s) =>
        var b := BuildAll(host, s.existing, inventory);
        var all := b.resources + s.external;
        Ok(Synced(WithResources(d, all), Report(|all|, |inventory|, b.added, b.updated, s.removed)))
  }

  /** The container's descriptor file, and the synchroniser working on it. */
  class Synchronizer {
    var file: OnDisk

    constructor (content: OnDisk)
      ensures file == content
    {
      file := content;
    }

    /** `sync`, for the inventory that the walk has found. */
    method Run(host: Host, tree: Node) returns (r: Result<Report>)
      requires WellFormedTree(tree)
      modifies this
      ensures r.Err? ==> file == old(file)
      ensures r.Ok? ==> exists inventory ::
        && IsInventory(tree, host.probe, inventory)
        && !IsFileAt(tree, [MARKER])
        && LoadDescriptor(old(file)).Ok?
        && var outcome := Sync(host, inventory, LoadDescriptor(old(file)).value);
        && outcome.Ok? && file == Holds(Obj(outcome.value.descriptor)) && r.value == outcome.value.report
      ensures r.Err? ==>
        || tree.File? || IsFileAt(tree, [MARKER]) || LoadDescriptor(old(file)).Err?
        || forall inventory :: IsInventory(tree, host.probe, inventory) ==>
             Sync(host, inventory, LoadDescriptor(old(file)).value).Err?
    {
      if tree.File? || IsFileAt(tree, [MARKER]) {
        return Err("the container is not a directory or its marker is not one");
      }
      var loaded := LoadDescriptor(file);
      if loaded.Err? {
        return Err(loaded.reason);
      }
      var resources := ResourcesOf(loaded.value);
      if resources.Err? {
        return Err(resources.reason);
      }
      var paths := ListResourcePaths(tree, host.probe);
      var sorted := SortLoop(host, AsSet(paths.value), resources.value);
      if sorted.Err? {
        forall other | IsInventory(tree, host.probe, other) ensures other == paths.value {
          InventoryUnique(tree, host.probe, other, paths.value);
        }
        return Err(sorted.reason);
      }
      var built := BuildLoop(host, sorted.value.existing, paths.value);
      var all := built.resources + sorted.value.external;
      file := Holds(Obj(WithResources(loaded.value, all)));
      r := Ok(Report(|all|, |paths.value|, built.added, built.updated, sorted.value.removed));
    }
  }

  lemma SortPrefix(host: Host, inventory: set<string>, rs: seq<Record>, i: nat)
    requires i < |rs| && SortOut(host, inventory, rs[..i]).Ok?
    ensures SortOut(host, inventory, rs[..i + 1])
         == SortOne(host, inventory, SortOut(host, inventory, rs[..i]).value, rs[i])
  {
    assert rs[..i + 1][..i] == rs[..i];
  }

  lemma BuildPrefix(host: Host, existing: map<string, Record>, inventory: seq<string>, i: nat)
    requires i < |inventory|
    ensures BuildAll(host, existing, inventory[..i + 1])
         == BuildOne(host, existing, BuildAll(host, existing, inventory[..i]), inventory[i])
  {
    assert inventory[..i + 1][..i] == inventory[..i];
  }

  /** The first loop of `sync`. */
  method SortLoop(host: Host, inventory: set<string>, rs: seq<Record>) returns (r: Result<Sorted>)
    ensures r.Ok? <==> SortOut(host, inventory, rs).Ok?
    ensures r.Ok? ==> r == SortOut(host, inventory, rs)
  {
    var existing: map<string, Record> := map[];
    var external: seq<Record> := [];
    var removed := 0;
    for i := 0 to |rs|
      invariant SortOut(host, inventory, rs[..i]).Ok?
      invariant SortOut(host, inventory, rs[..i]).value == Sorted(existing, external, removed)
    {
      var resource := rs[i];
      SortPrefix(host, inventory, rs, i);
      var place := ManagedPath(host, resource);
      match place {
        case Failed =>
          FailureStays(host, inventory, rs, i + 1);
          return Err("a path cannot be resolved");
        case External =>
          external := external + [resource];
        case At(path) =>
          if !IsReadable(host, resource) || path !in inventory || path in existing {
            removed := removed + 1;
          } else {
            existing := existing[path := resource];
          }
      }
    }
    assert rs[..|rs|] == rs;
    r := Ok(Sorted(existing, external, removed));
  }

  lemma {:induction false} FailureStays(host: Host, inventory: set<string>, rs: seq<Record>, i: nat)
    requires i <= |rs| && SortOut(host, inventory, rs[..i]).Err?
    ensures SortOut(host, inventory, rs).Err?
    decreases |rs|
  {
    if i == |rs| {
      assert rs[..i] == rs;
    } else {
      assert rs[..|rs| - 1][..i] == rs[..i];
      FailureStays(host, inventory, rs[..|rs| - 1], i);
    }
  }

  /** The second loop of `sync`. */
  method BuildLoop(host: Host, existing: map<string, Record>, inventory: seq<string>) returns (b: Built)
    ensures b == BuildAll(host, existing, inventory)
  {
    hide BuildLocal, Supports, FormatText;
    var resources: seq<Record> := [];
    var added, updated := 0, 0;
    for i := 0 to |inventory|
      invariant Built(resources, added, updated) == BuildAll(host, existing, inventory[..i])
    {
      var rel := inventory[i];
      BuildPrefix(host, existing, inventory, i);
      if Supports(host.probe, FormatText(rel)) {
        var r := BuildLocal(host, rel, Base(existing, rel));
        resources := resources + [r];
        if rel !in existing {
          added := added + 1;
        } else if r != existing[rel] {
          updated := updated + 1;
        }
      }
    }
    assert inventory[..|inventory|] == inventory;
    b := Built(resources, added, updated);
  }
}

/** Plans whose targets were computed by `resolve_identity`: half of what an attachment needs holds by
    construction. */
module ResolvedPlans {
  import opened Text
  import opened Utf8
  import opened Paths
  import opened Rdf
  import opened AttachmentPlans
  import opened Planner
  import opened Attachment
  import opened Reattachment

  lemma {:induction false} QuotedHasNoSpace(bs: seq<Byte>)
    ensures forall c :: c in QuoteBytes(bs) ==> !IsSpace(c)
  {
    if bs != [] {
      QuotedHasNoSpace(bs[1..]);
      QuotedByteHasNoSpace(bs[0]);
    }
  }

  lemma QuotedByteHasNoSpace(b: Byte)
    ensures forall c :: c in QuoteByte(b) ==> !IsSpace(c)
  {
    if IsUnreserved(b) || b == '/' as int {
      assert QuoteByte(b) == [b as char];
    } else {
      HexIsNoSpace(b / 16);
      HexIsNoSpace(b % 16);
      assert QuoteByte(b) == ['%', HexDigit(b / 16), HexDigit(b % 16)];
    }
  }

  lemma HexIsNoSpace(d: int)
    requires 0 <= d < 16
    ensures !IsSpace(HexDigit(d))
  {
    assert d < 10 ==> HexDigit(d) as int == '0' as int + d;
    assert d >= 10 ==> HexDigit(d) as int == 'A' as int + d - 10;
  }

  /** A quoted text behind a solid prefix is left alone by `strip`. */
  lemma PrefixedIsClean(prefix: string, s: string)
    requires prefix != "" && !IsSpace(prefix[0]) && !IsSpace(prefix[|prefix| - 1])
    ensures Clean(prefix + Quote(s))
  {
    var q := Quote(s);
    QuotedHasNoSpace(Encode(s));
    var text := prefix + q;
    if q != "" {
      assert q[|q| - 1] in q && text[|text| - 1] == q[|q| - 1];
    }
  }

  lemma PrefixesAreSolid()
    ensures CONTAINER_PREFIX[0] == 'u' && CONTAINER_PREFIX[|CONTAINER_PREFIX| - 1] == '/'
    ensures DATASET_PREFIX[0] == 'u' && DATASET_PREFIX[|DATASET_PREFIX| - 1] == '/'
  {
  }

  /** A plan whose targets were computed by `resolve_identity`. */
  ghost predicate IsResolved(plan: Plan, root: Path, container: Path, digest: string -> string) {
    && IsHexDigest(digest) && Inside(container, root)
    && plan.target == ContainerTarget(root, container)
    && AreSubdirectories(container, plan.datasets)
    && forall i :: 0 <= i < |plan.datasets| ==>
         Inside(plan.datasets[i].path, root)
         && plan.datasets[i].target == Some(TargetOf(root, plan.datasets[i], digest))
  }

  predicate HasScheme(name: string, scheme: string) {
    |scheme| < |name| && name[..|scheme|] == scheme && name[|scheme|] == ':'
  }

  /** What an attachment hands out has the scheme `urn` or `file`; class names have `http`. */
  predicate IsHandedOut(name: string) {
    HasScheme(name, "urn") || HasScheme(name, "file")
  }

  lemma PrefixKeepsScheme(prefix: string, rest: string)
    requires IsHandedOut(prefix)
    ensures IsHandedOut(prefix + rest)
  {
    var name := prefix + rest;
    assert HasScheme(prefix, "urn") ==> name[..3] == prefix[..3];
    assert HasScheme(prefix, "file") ==> name[..4] == prefix[..4];
  }

  lemma PrefixesAreHandedOut()
    ensures IsHandedOut(CONTAINER_PREFIX) && IsHandedOut(DATASET_PREFIX) && IsHandedOut("file://")
  {
    assert CONTAINER_PREFIX[..3] == "urn" && DATASET_PREFIX[..3] == "urn" && "file://"[..4] == "file";
  }

  lemma FileUriTexts(p: Path)
    ensures Clean(AsUri(p)) && IsHandedOut(AsUri(p))
  {
    PrefixesAreHandedOut();
    PrefixedIsClean("file://", "/" + Join(p));
    PrefixKeepsScheme("file://", Quote("/" + Join(p)));
  }

  lemma DatasetIdTexts(root: Path, p: Path)
    requires Inside(p, root)
    ensures Clean(DatasetId(root, p)) && IsHandedOut(DatasetId(root, p))
  {
    PrefixesAreSolid();
    PrefixesAreHandedOut();
    PrefixedIsClean(DATASET_PREFIX, Posix(RelativeTo(p, root)));
    PrefixKeepsScheme(DATASET_PREFIX, Quote(Posix(RelativeTo(p, root))));
  }

  lemma TargetTexts(root: Path, d: Dataset, digest: string -> string)
    requires Inside(d.path, root)
    ensures
      var t := TargetOf(root, d, digest);
      && Clean(t.id) && Clean(t.location)
      && IsHandedOut(t.subject) && IsHandedOut(t.ontology) && IsHandedOut(t.entity)
  {
    DatasetIdTexts(root, d.path);
    var id := DatasetId(root, d.path);
    PrefixKeepsScheme(id, "/" + digest(id));
    assert id + "/" + digest(id) == id + ("/" + digest(id));
    FileUriTexts(d.path);
    FileUriTexts(d.file);
  }

  lemma ContainerTexts(root: Path, container: Path)
    requires Inside(container, root)
    ensures
      var who := ContainerTarget(root, container);
      Clean(who.id) && Clean(who.location) && IsHandedOut(who.id)
  {
    PrefixesAreSolid();
    PrefixesAreHandedOut();
    PrefixedIsClean(CONTAINER_PREFIX, Posix(RelativeTo(container, root)));
    PrefixKeepsScheme(CONTAINER_PREFIX, Quote(Posix(RelativeTo(container, root))));
    FileUriTexts(container);
  }

  lemma ClassTexts(c: Term)
    requires c in CLASSES
    ensures !IsHandedOut(c.text)
  {
    assert OBDC[0] == 'h' && c.text[0] == 'h';
    SchemeStart(c.text, "urn");
    SchemeStart(c.text, "file");
  }

  lemma SchemeStart(name: string, scheme: string)
    ensures HasScheme(name, scheme) && scheme != "" ==> name[0] == scheme[0]
  {
    assert HasScheme(name, scheme) && scheme != "" ==> name[..|scheme|][0] == name[0];
  }

  lemma TargetsAreHandedOut(container: string, datasets: seq<Dataset>, root: Path, digest: string -> string)
    requires IsHandedOut(container)
    requires forall i :: 0 <= i < |datasets| ==> Inside(datasets[i].path, root)
    ensures forall name :: name in TargetNames(container, Targets(root, datasets, digest)) ==> IsHandedOut(name)
  {
    var targets := Targets(root, datasets, digest);
    forall name | name in TargetNames(container, targets) ensures IsHandedOut(name) {
      if name != container {
        var i := NameBelongsTo(container, targets, name);
        TargetTexts(root, datasets[i], digest);
      }
    }
  }

  lemma HandedOutAreNoClasses(names: seq<string>)
    requires forall name :: name in names ==> IsHandedOut(name)
    ensures NoClassNames(names)
  {
    forall c | c in CLASSES ensures c.text !in names {
      ClassTexts(c);
    }
  }

  lemma ResolvedTargets(plan: Plan, root: Path, container: Path, digest: string -> string)
    requires IsResolved(plan, root, container, digest)
    ensures AllResolved(plan.datasets) && DatasetTargets(plan.datasets) == Targets(root, plan.datasets, digest)
  {
  }

  /** Resolved identities never collide, with each other or with a class name, and are read back unchanged. */
  lemma ResolvedPlanIsSound(plan: Plan, root: Path, container: Path, digest: string -> string)
    requires IsResolved(plan, root, container, digest)
    ensures AllResolved(plan.datasets) && plan.target.subject.Uri?
    ensures Distinct(TargetNames(plan.target.subject.text, DatasetTargets(plan.datasets)))
    ensures NoClassNames(TargetNames(plan.target.subject.text, DatasetTargets(plan.datasets)))
    ensures CleanTargets(plan) && IsResolvedFor(plan)
    ensures forall name ::
      name in TargetNames(plan.target.subject.text, DatasetTargets(plan.datasets)) ==> IsHandedOut(name)
  {
    ResolvedTargets(plan, root, container, digest);
    ContainerTexts(root, container);
    TargetsNeverCollide(root, container, plan.datasets, digest);
    TargetsAreHandedOut(ContainerId(root, container), plan.datasets, root, digest);
    HandedOutAreNoClasses(TargetNames(ContainerId(root, container), Targets(root, plan.datasets, digest)));
    forall i | 0 <= i < |plan.datasets|
      ensures Clean(plan.datasets[i].target.value.id) && Clean(plan.datasets[i].target.value.location)
    {
      TargetTexts(root, plan.datasets[i], digest);
    }
  }

  /** An unmoved container resolves to the same targets again. */
  lemma UnmovedResolvesAgain(plan: Plan, root: Path, container: Path, digest: string -> string)
    requires IsResolved(plan, root, container, digest) && AllResolved(plan.datasets)
    requires AreInspected(plan.source.subject.text, plan.datasets)
    ensures IsResolved(Again(plan), root, container, digest)
  {
  }
}

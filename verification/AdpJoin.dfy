/** Merging as a least upper bound. Manifests, read as fields and packages by name,
    are ordered by what they say; a merge is the least manifest above both, so the
    order in which uploads are merged cannot matter. */
module AdpJoin {
  import opened Text
  import opened Adp
  import opened AdpMerge

  datatype Entry =
    | Verbatim(value: Value)
    | Detailed(rest: Fields, from: Option<Fields>, sha256: Option<Fields>, archive: Option<Fields>,
               platforms: set<string>)

  datatype Manifest = Manifest(fields: Fields, entries: map<string, Entry>)

  // --------------------------------------------------------------- the order

  predicate FieldsBelow(a: Fields, b: Fields) { forall key :: key in a ==> key in b && b[key] == a[key] }

  predicate FieldBelow(a: Option<Fields>, b: Option<Fields>) { a.Some? ==> b.Some? && FieldsBelow(a.value, b.value) }

  predicate EntryBelow(a: Entry, b: Entry) {
    match (a, b)
    case (Verbatim(v), Verbatim(w)) => v == w
    case (Detailed(_, _, _, _, _), Detailed(_, _, _, _, _)) =>
      && a.rest == b.rest
      && FieldBelow(a.from, b.from) && FieldBelow(a.sha256, b.sha256) && FieldBelow(a.archive, b.archive)
      && a.platforms <= b.platforms
    case _ => false
  }

  predicate EntriesBelow(a: map<string, Entry>, b: map<string, Entry>) {
    forall id :: id in a ==> id in b && EntryBelow(a[id], b[id])
  }

  /** b says everything a says, and says it the same way. */
  predicate Below(a: Manifest, b: Manifest) {
    FieldsBelow(a.fields, b.fields) && EntriesBelow(a.entries, b.entries)
  }

  lemma FieldAntisymmetric(a: Option<Fields>, b: Option<Fields>)
    requires FieldBelow(a, b) && FieldBelow(b, a)
    ensures a == b
  {
    if a.Some? && b.Some? {
      assert a.value == b.value;
    }
  }

  lemma EntryOrder(a: Entry, b: Entry, c: Entry)
    ensures EntryBelow(a, a)
    ensures EntryBelow(a, b) && EntryBelow(b, c) ==> EntryBelow(a, c)
    ensures EntryBelow(a, b) && EntryBelow(b, a) ==> a == b
  {
    if EntryBelow(a, b) && EntryBelow(b, a) && a.Detailed? {
      FieldAntisymmetric(a.from, b.from);
      FieldAntisymmetric(a.sha256, b.sha256);
      FieldAntisymmetric(a.archive, b.archive);
      assert a.platforms == b.platforms;
    }
  }

  lemma BelowTransitive(a: Manifest, b: Manifest, c: Manifest)
    requires Below(a, b) && Below(b, c)
    ensures Below(a, c)
  {
    forall id | id in a.entries ensures id in c.entries && EntryBelow(a.entries[id], c.entries[id]) {
      EntryOrder(a.entries[id], b.entries[id], c.entries[id]);
    }
  }

  lemma BelowReflexive(a: Manifest)
    ensures Below(a, a)
  {
    forall id | id in a.entries ensures EntryBelow(a.entries[id], a.entries[id]) {
      EntryOrder(a.entries[id], a.entries[id], a.entries[id]);
    }
  }

  lemma BelowAntisymmetric(a: Manifest, b: Manifest)
    requires Below(a, b) && Below(b, a)
    ensures a == b
  {
    assert a.fields == b.fields;
    forall id | id in a.entries ensures id in b.entries && a.entries[id] == b.entries[id] {
      EntryOrder(a.entries[id], b.entries[id], a.entries[id]);
    }
    assert a.entries == b.entries;
  }

  // -------------------------------------------------------------- the join

  function JoinEntry(a: Entry, b: Entry): Option<Entry> {
    if !a.Detailed? || !b.Detailed? then (if a == b then Some(a) else None)
    else if a.rest != b.rest then None
    else
      var from, sha256, archive := JoinField(a.from, b.from), JoinField(a.sha256, b.sha256),
        JoinField(a.archive, b.archive);
      if from.None? || sha256.None? || archive.None? then None
      else Some(Detailed(a.rest, from.value, sha256.value, archive.value, a.platforms + b.platforms))
  }

  predicate Compatible(a: map<string, Entry>, b: map<string, Entry>) {
    forall id :: id in a && id in b ==> JoinEntry(a[id], b[id]).Some?
  }

  function JoinEntries(a: map<string, Entry>, b: map<string, Entry>): map<string, Entry>
    requires Compatible(a, b)
  {
    map id | id in a.Keys + b.Keys ::
      if id in a && id in b then JoinEntry(a[id], b[id]).value else if id in a then a[id] else b[id]
  }

  function JoinManifests(a: Manifest, b: Manifest): Option<Manifest> {
    if Agree(a.fields, b.fields) && Compatible(a.entries, b.entries)
    then Some(Manifest(a.fields + b.fields, JoinEntries(a.entries, b.entries)))
    else None
  }

  lemma JoinFieldLeast(a: Option<Fields>, b: Option<Fields>, u: Option<Fields>)
    ensures JoinField(a, b).Some? ==> FieldBelow(a, JoinField(a, b).value) && FieldBelow(b, JoinField(a, b).value)
    ensures FieldBelow(a, u) && FieldBelow(b, u) ==> JoinField(a, b).Some? && FieldBelow(JoinField(a, b).value, u)
  {
  }

  lemma JoinEntryLeast(a: Entry, b: Entry, u: Entry)
    ensures JoinEntry(a, b).Some? ==> EntryBelow(a, JoinEntry(a, b).value) && EntryBelow(b, JoinEntry(a, b).value)
    ensures EntryBelow(a, u) && EntryBelow(b, u) ==> JoinEntry(a, b).Some? && EntryBelow(JoinEntry(a, b).value, u)
  {
    if a.Detailed? && b.Detailed? && u.Detailed? {
      JoinFieldLeast(a.from, b.from, u.from);
      JoinFieldLeast(a.sha256, b.sha256, u.sha256);
      JoinFieldLeast(a.archive, b.archive, u.archive);
    } else if a.Detailed? && b.Detailed? {
      JoinFieldLeast(a.from, b.from, None);
      JoinFieldLeast(a.sha256, b.sha256, None);
      JoinFieldLeast(a.archive, b.archive, None);
    }
  }

  /** The join is above both sides: nothing stored is lost or changed. */
  lemma JoinIsUpper(a: Manifest, b: Manifest)
    requires JoinManifests(a, b).Some?
    ensures Below(a, JoinManifests(a, b).value) && Below(b, JoinManifests(a, b).value)
  {
    var c := JoinManifests(a, b).value;
    forall id | id in c.entries
      ensures id in a.entries ==> EntryBelow(a.entries[id], c.entries[id])
      ensures id in b.entries ==> EntryBelow(b.entries[id], c.entries[id])
    {
      EntryOrder(c.entries[id], c.entries[id], c.entries[id]);
      if id in a.entries && id in b.entries {
        JoinEntryLeast(a.entries[id], b.entries[id], a.entries[id]);
      }
    }
  }

  /** It exists and is least as soon as anything is above both. */
  lemma JoinIsLeast(a: Manifest, b: Manifest, u: Manifest)
    requires Below(a, u) && Below(b, u)
    ensures JoinManifests(a, b).Some? && Below(JoinManifests(a, b).value, u)
  {
    forall id | id in a.entries && id in b.entries
      ensures JoinEntry(a.entries[id], b.entries[id]).Some?
        && EntryBelow(JoinEntry(a.entries[id], b.entries[id]).value, u.entries[id])
    {
      JoinEntryLeast(a.entries[id], b.entries[id], u.entries[id]);
    }
  }

  // --------------------------------------------------------- many manifests

  function JoinAll(all: seq<Manifest>): Option<Manifest>
    requires all != []
  {
    if |all| == 1 then Some(all[0])
    else
      var before := JoinAll(all[..|all| - 1]);
      if before.None? then None else JoinManifests(before.value, all[|all| - 1])
  }

  ghost predicate Above(u: Manifest, all: seq<Manifest>) { forall m :: m in all ==> Below(m, u) }

  lemma {:induction false} JoinAllIsUpper(all: seq<Manifest>)
    requires all != [] && JoinAll(all).Some?
    ensures Above(JoinAll(all).value, all)
  {
    var n := |all| - 1;
    if n == 0 {
      BelowReflexive(all[0]);
    } else {
      JoinAllIsUpper(all[..n]);
      var before, c := JoinAll(all[..n]).value, JoinAll(all).value;
      JoinIsUpper(before, all[n]);
      forall m | m in all ensures Below(m, c) {
        if m != all[n] {
          assert m in all[..n];
          BelowTransitive(m, before, c);
        }
      }
    }
  }

  lemma {:induction false} JoinAllIsLeast(all: seq<Manifest>, u: Manifest)
    requires all != [] && Above(u, all)
    ensures JoinAll(all).Some? && Below(JoinAll(all).value, u)
  {
    var n := |all| - 1;
    if n > 0 {
      JoinAllIsLeast(all[..n], u);
      JoinIsLeast(JoinAll(all[..n]).value, all[n], u);
    }
  }

  /** Manifests joined in any order, with any repetitions, give the same result. */
  lemma JoinAllAnyOrder(p: seq<Manifest>, q: seq<Manifest>)
    requires p != [] && q != [] && forall m :: m in p <==> m in q
    ensures JoinAll(p) == JoinAll(q)
  {
    if JoinAll(p).Some? {
      JoinAllIsUpper(p);
      JoinAllIsLeast(q, JoinAll(p).value);
    }
    if JoinAll(q).Some? {
      JoinAllIsUpper(q);
      JoinAllIsLeast(p, JoinAll(q).value);
    }
    if JoinAll(p).Some? && JoinAll(q).Some? {
      BelowAntisymmetric(JoinAll(p).value, JoinAll(q).value);
    }
  }

  /** Any two of the manifests can be joined. */
  predicate Agreeing(all: seq<Manifest>) {
    forall i, j :: 0 <= i < j < |all| ==> JoinManifests(all[i], all[j]).Some?
  }

  lemma FieldAgreesWithBoth(a: Option<Fields>, b: Option<Fields>, c: Option<Fields>)
    requires JoinField(a, b).Some? && JoinField(a, c).Some? && JoinField(b, c).Some?
    ensures JoinField(JoinField(a, b).value, c).Some?
  {
  }

  lemma EntryAgreesWithBoth(a: Entry, b: Entry, c: Entry)
    requires JoinEntry(a, b).Some? && JoinEntry(a, c).Some? && JoinEntry(b, c).Some?
    ensures JoinEntry(JoinEntry(a, b).value, c).Some?
  {
    if a.Detailed? {
      FieldAgreesWithBoth(a.from, b.from, c.from);
      FieldAgreesWithBoth(a.sha256, b.sha256, c.sha256);
      FieldAgreesWithBoth(a.archive, b.archive, c.archive);
    }
  }

  /** What agrees with two manifests agrees with their join. */
  lemma AgreesWithBoth(a: Manifest, b: Manifest, c: Manifest)
    requires JoinManifests(a, b).Some? && JoinManifests(a, c).Some? && JoinManifests(b, c).Some?
    ensures JoinManifests(JoinManifests(a, b).value, c).Some?
  {
    var joined := JoinManifests(a, b).value;
    forall id | id in joined.entries && id in c.entries ensures JoinEntry(joined.entries[id], c.entries[id]).Some? {
      if id in a.entries && id in b.entries {
        EntryAgreesWithBoth(a.entries[id], b.entries[id], c.entries[id]);
      }
    }
  }

  lemma {:induction false} AgreesWithAll(all: seq<Manifest>, c: Manifest)
    requires all != [] && JoinAll(all).Some? && forall i :: 0 <= i < |all| ==> JoinManifests(all[i], c).Some?
    ensures JoinManifests(JoinAll(all).value, c).Some?
  {
    var n := |all| - 1;
    if n > 0 {
      AgreesWithAll(all[..n], c);
      AgreesWithBoth(JoinAll(all[..n]).value, all[n], c);
    }
  }

  lemma {:induction false} AgreeingJoin(all: seq<Manifest>)
    requires all != [] && Agreeing(all)
    ensures JoinAll(all).Some?
  {
    var n := |all| - 1;
    if n > 0 {
      AgreeingJoin(all[..n]);
      AgreesWithAll(all[..n], all[n]);
    }
  }

  /** Manifests have a common join exactly when any two of them do. */
  lemma JoinAllExactly(all: seq<Manifest>)
    requires all != []
    ensures JoinAll(all).Some? <==> Agreeing(all)
  {
    if JoinAll(all).Some? {
      JoinAllIsUpper(all);
      forall i, j | 0 <= i < j < |all| ensures JoinManifests(all[i], all[j]).Some? {
        assert all[i] in all && all[j] in all;
        JoinIsLeast(all[i], all[j], JoinAll(all).value);
      }
    } else if Agreeing(all) {
      AgreeingJoin(all);
    }
  }

  predicate PlatformsAgree(a: Option<Fields>, b: Option<Fields>) { a.Some? && b.Some? ==> Agree(a.value, b.value) }

  /** One package as two uploads send it: they may differ in platforms only, and not
      about the same platform. */
  predicate SharesFields(a: Entry, b: Entry) {
    match (a, b)
    case (Verbatim(v), Verbatim(w)) => v == w
    case (Detailed(_, _, _, _, _), Detailed(_, _, _, _, _)) =>
      && a.rest == b.rest
      && PlatformsAgree(a.from, b.from) && PlatformsAgree(a.sha256, b.sha256) && PlatformsAgree(a.archive, b.archive)
    case _ => false
  }

  lemma SharingEntriesJoin(a: Entry, b: Entry)
    ensures SharesFields(a, b) <==> JoinEntry(a, b).Some?
  {
  }

  /** Manifests agree exactly when they share their fields and, package by package,
      everything but platforms. */
  lemma SharingAgrees(all: seq<Manifest>)
    ensures Agreeing(all) <==> forall i, j :: 0 <= i < j < |all| ==>
      && Agree(all[i].fields, all[j].fields)
      && forall id :: id in all[i].entries && id in all[j].entries ==>
        SharesFields(all[i].entries[id], all[j].entries[id])
  {
    forall a: Entry, b: Entry ensures SharesFields(a, b) <==> JoinEntry(a, b).Some? { SharingEntriesJoin(a, b); }
  }

  // ------------------------------------------------------------- refinement

  function EntryOf(p: Package): Entry {
    match p
    case Plain(value) => Verbatim(value)
    case Spec(rest, from, sha256, archive, _) => Detailed(rest, from, sha256, archive, set x | x in PlatformList(p))
  }

  function Names(packages: seq<Package>): set<string> {
    set i | 0 <= i < |packages| && PackageId(packages[i]).Some? :: PackageId(packages[i]).value
  }

  function EntriesOf(packages: seq<Package>): map<string, Entry> {
    map id | id in Names(packages) && IndexOf(packages, id).Some? :: EntryOf(packages[IndexOf(packages, id).value])
  }

  function ManifestOf(doc: Document): Manifest
    requires doc.packages.Some?
  {
    Manifest(doc.fields, EntriesOf(doc.packages.value))
  }

  lemma EntriesAt(packages: seq<Package>)
    requires Keyed(packages)
    ensures forall i :: 0 <= i < |packages| ==>
      && PackageId(packages[i]).value in EntriesOf(packages)
      && EntriesOf(packages)[PackageId(packages[i]).value] == EntryOf(packages[i])
    ensures forall id :: id in EntriesOf(packages) <==> Has(packages, id)
  {
    forall i | 0 <= i < |packages|
      ensures PackageId(packages[i]).value in EntriesOf(packages)
      ensures EntriesOf(packages)[PackageId(packages[i]).value] == EntryOf(packages[i])
    {
      IndexOfKeyed(packages, i);
      assert PackageId(packages[i]).value in Names(packages);
    }
    forall id ensures id in EntriesOf(packages) <==> Has(packages, id) {
      HasIndex(packages, id);
    }
  }

  lemma EntryNamed(packages: seq<Package>, id: string)
    requires Keyed(packages)
    ensures id in EntriesOf(packages) <==> Has(packages, id)
  {
    EntriesAt(packages);
  }

  lemma EntryAt(packages: seq<Package>, k: nat, id: string)
    requires Keyed(packages) && k < |packages| && PackageId(packages[k]) == Some(id)
    ensures id in EntriesOf(packages) && EntriesOf(packages)[id] == EntryOf(packages[k])
  {
    EntriesAt(packages);
  }

  lemma {:induction false} TrimmingsElements(items: seq<string>)
    ensures forall x :: x in Trimmings(items) ==> x != "" && TrimSpace(x) == x
    ensures forall x :: x in items && x != "" && TrimSpace(x) == x ==> x in Trimmings(items)
  {
    if items != [] {
      TrimmingsElements(items[1..]);
      TrimmedIsFixed(TrimSpace(items[0]));
    }
  }

  lemma {:induction false} TrimmingsOrigin(items: seq<string>, x: string)
    requires x in Trimmings(items)
    ensures exists y :: y in items && TrimSpace(y) == x
  {
    if TrimSpace(items[0]) == x {
      assert items[0] in items;
    } else {
      TrimmingsOrigin(items[1..], x);
      var y :| y in items[1..] && TrimSpace(y) == x;
      assert y in items;
    }
  }

  /** Reading the merged list back gives the union of both lists. */
  lemma MergedPlatforms(left: seq<string>, right: seq<string>)
    requires forall x :: x in left || x in right ==> x != "" && TrimSpace(x) == x
    ensures (set x | x in Trimmings(MergeStrings(left, right))) == (set x | x in left) + (set x | x in right)
  {
    var merged := MergeStrings(left, right);
    MergeStringsLaws(left, right);
    TrimmingsElements(merged);
    forall x ensures x in Trimmings(merged) <==> x in left || x in right {
      assert x in left || x in right ==> x in merged && TrimSpace(x) == x;
      if x in Trimmings(merged) {
        TrimmingsOrigin(merged, x);
      }
    }
  }

  lemma PlatformsClean(p: Package)
    requires p.Spec?
    ensures forall x :: x in PlatformList(p) ==> x != "" && TrimSpace(x) == x
  {
    if p.platforms.Some? {
      TrimmingsElements(p.platforms.value);
    }
  }

  lemma MergePackageRefines(p: Package, c: Package)
    ensures MergePackage(p, c).Some? <==> JoinEntry(EntryOf(p), EntryOf(c)).Some?
    ensures MergePackage(p, c).Some? ==> EntryOf(MergePackage(p, c).value) == JoinEntry(EntryOf(p), EntryOf(c)).value
  {
    if p.Spec? && c.Spec? {
      PlatformsClean(p);
      PlatformsClean(c);
      MergedPlatforms(PlatformList(p), PlatformList(c));
    }
  }

  lemma MergeDefined(prior: seq<Package>, current: seq<Package>)
    requires Keyed(prior) && Keyed(current)
    ensures MergeAll(prior, current).Some? <==> Compatible(EntriesOf(prior), EntriesOf(current))
  {
    MergeAllShape(prior, current);
    EntriesAt(prior);
    EntriesAt(current);
    forall j | 0 <= j < |current|
      ensures Meets(prior, current[j])
        <==> (var id := PackageId(current[j]).value;
              id in EntriesOf(prior) ==> JoinEntry(EntriesOf(prior)[id], EntriesOf(current)[id]).Some?)
    {
      var k := IndexOf(prior, PackageId(current[j]).value);
      HasIndex(prior, PackageId(current[j]).value);
      if k.Some? {
        MergePackageRefines(prior[k.value], current[j]);
      }
    }
    CompatiblePointwise(prior, current);
  }

  lemma CompatiblePointwise(prior: seq<Package>, current: seq<Package>)
    requires Keyed(prior) && Keyed(current)
    ensures Compatible(EntriesOf(prior), EntriesOf(current)) <==>
      forall j :: 0 <= j < |current| ==>
        (var id := PackageId(current[j]).value;
         id in EntriesOf(current)
           && (id in EntriesOf(prior) ==> JoinEntry(EntriesOf(prior)[id], EntriesOf(current)[id]).Some?))
  {
    EntriesAt(current);
    forall id | id in EntriesOf(current) ensures exists j :: 0 <= j < |current| && PackageId(current[j]) == Some(id) {}
  }

  lemma EntryMerged(prior: seq<Package>, current: seq<Package>, merged: seq<Package>, i: nat, id: string)
    requires Keyed(prior) && Keyed(current) && Shaped(prior, current, merged) && !SharedMapping(prior, current)
    requires i < |merged| && PackageId(merged[i]) == Some(id)
    requires Compatible(EntriesOf(prior), EntriesOf(current))
    ensures var joined := JoinEntries(EntriesOf(prior), EntriesOf(current));
      id in joined && joined[id] == EntryOf(merged[i])
  {
    EntriesAt(prior);
    EntriesAt(current);
    if i < |prior| {
      SharedNames(prior, current, merged, i);
      HasIndex(current, id);
      var j := IndexOf(current, id);
      if j.Some? {
        MergePackageRefines(prior[i], current[j.value]);
      }
    } else {
      UnsharedMembers(prior, current);
      assert merged[|prior|..][i - |prior|] == merged[i];
      assert merged[i] in Unshared(prior, current);
    }
  }

  lemma EntriesMergedAt(prior: seq<Package>, current: seq<Package>, merged: seq<Package>, id: string)
    requires Keyed(prior) && Keyed(current) && Shaped(prior, current, merged) && !SharedMapping(prior, current)
    requires Keyed(merged) && (Has(merged, id) <==> Has(prior, id) || Has(current, id))
    requires Compatible(EntriesOf(prior), EntriesOf(current))
    ensures var joined := JoinEntries(EntriesOf(prior), EntriesOf(current));
      && (id in EntriesOf(merged) <==> id in joined)
      && (id in joined ==> EntriesOf(merged)[id] == joined[id])
  {
    EntryNamed(merged, id);
    EntryNamed(prior, id);
    EntryNamed(current, id);
    if Has(merged, id) {
      var i :| 0 <= i < |merged| && PackageId(merged[i]) == Some(id);
      EntryAt(merged, i, id);
      EntryMerged(prior, current, merged, i, id);
    }
  }

  lemma EntriesMerged(prior: seq<Package>, current: seq<Package>, merged: seq<Package>)
    requires Keyed(prior) && Keyed(current) && Shaped(prior, current, merged) && !SharedMapping(prior, current)
    requires Keyed(merged) && forall id :: Has(merged, id) <==> Has(prior, id) || Has(current, id)
    requires Compatible(EntriesOf(prior), EntriesOf(current))
    ensures EntriesOf(merged) == JoinEntries(EntriesOf(prior), EntriesOf(current))
  {
    var found, joined := EntriesOf(merged), JoinEntries(EntriesOf(prior), EntriesOf(current));
    forall id ensures (id in found <==> id in joined) && (id in joined ==> found[id] == joined[id]) {
      EntriesMergedAt(prior, current, merged, id);
    }
    SameMap(found, joined);
  }

  lemma SameMap(a: map<string, Entry>, b: map<string, Entry>)
    requires forall id :: (id in a <==> id in b) && (id in b ==> a[id] == b[id])
    ensures a == b
  {
  }

  /** Merging the package lists joins the entries they stand for. */
  lemma MergeAllRefines(prior: seq<Package>, current: seq<Package>)
    requires Keyed(prior) && Keyed(current) && !SharedMapping(prior, current)
    ensures MergeAll(prior, current).Some? <==> Compatible(EntriesOf(prior), EntriesOf(current))
    ensures MergeAll(prior, current).Some? ==>
      && Keyed(MergeAll(prior, current).value)
      && EntriesOf(MergeAll(prior, current).value) == JoinEntries(EntriesOf(prior), EntriesOf(current))
  {
    MergeDefined(prior, current);
    if MergeAll(prior, current).Some? {
      MergeAllShape(prior, current);
      MergedKeyed(prior, current, MergeAll(prior, current).value);
      EntriesMerged(prior, current, MergeAll(prior, current).value);
    }
  }

  predicate Readable(doc: Document) { doc.packages.Some? && Keyed(doc.packages.value) }

  /** mergeADPDocuments computes the least manifest above both, and fails exactly
      when nothing is above both. */
  lemma MergeIsJoin(prior: Document, current: Document)
    requires Readable(prior) && Readable(current) && !SharedMapping(prior.packages.value, current.packages.value)
    ensures Merge(prior, current).Some? <==> JoinManifests(ManifestOf(prior), ManifestOf(current)).Some?
    ensures Merge(prior, current).Some? ==>
      && Readable(Merge(prior, current).value)
      && ManifestOf(Merge(prior, current).value) == JoinManifests(ManifestOf(prior), ManifestOf(current)).value
  {
    MergeAllRefines(prior.packages.value, current.packages.value);
  }

  // ------------------------------------------------------- stored manifests

  /** The manifest stored after the uploads of a release came in, one by one. */
  function StoredAfter(docs: seq<Document>): Option<Document>
    requires docs != []
  {
    if |docs| == 1 then Some(docs[0])
    else
      var before := StoredAfter(docs[..|docs| - 1]);
      if before.None? then None else Merge(before.value, docs[|docs| - 1])
  }

  predicate AllReadable(docs: seq<Document>) { forall i :: 0 <= i < |docs| ==> Readable(docs[i]) }

  function PackagesOf(doc: Document): seq<Package> { if doc.packages.Some? then doc.packages.value else [] }

  /** Both documents declare a provider mapping of one name. */
  ghost predicate Clash(a: Document, b: Document) { SharedMapping(PackagesOf(a), PackagesOf(b)) }

  /** No two of the documents declare one provider mapping. */
  ghost predicate Separated(docs: seq<Document>) {
    forall i, j :: 0 <= i < j < |docs| ==> !Clash(docs[i], docs[j])
  }

  /** Some document declares a provider mapping of this name. */
  ghost predicate Declared(docs: seq<Document>, id: string) {
    docs != [] && (MapsName(PackagesOf(docs[|docs| - 1]), id) || Declared(docs[..|docs| - 1], id))
  }

  function ManifestsOf(docs: seq<Document>): seq<Manifest>
    requires AllReadable(docs)
  {
    seq(|docs|, i requires 0 <= i < |docs| => ManifestOf(docs[i]))
  }

  lemma {:induction false} DeclaredBy(docs: seq<Document>, i: nat, id: string)
    requires i < |docs| && MapsName(PackagesOf(docs[i]), id)
    ensures Declared(docs, id)
  {
    if i < |docs| - 1 {
      DeclaredBy(docs[..|docs| - 1], i, id);
    }
  }

  lemma {:induction false} DeclaredFrom(docs: seq<Document>, id: string) returns (i: nat)
    requires Declared(docs, id)
    ensures i < |docs| && MapsName(PackagesOf(docs[i]), id)
  {
    i := |docs| - 1;
    if !MapsName(PackagesOf(docs[i]), id) {
      i := DeclaredFrom(docs[..i], id);
    }
  }

  ghost predicate Redeclares(docs: seq<Document>, last: Document) {
    exists id :: Declared(docs, id) && MapsName(PackagesOf(last), id)
  }

  lemma RedeclaresSome(docs: seq<Document>, last: Document)
    ensures Redeclares(docs, last) <==> exists i :: 0 <= i < |docs| && Clash(docs[i], last)
  {
    if Redeclares(docs, last) {
      var id :| Declared(docs, id) && MapsName(PackagesOf(last), id);
      var i := DeclaredFrom(docs, id);
      assert Clash(docs[i], last);
    }
    if i :| 0 <= i < |docs| && Clash(docs[i], last) {
      var id :| MapsName(PackagesOf(docs[i]), id) && MapsName(PackagesOf(last), id);
      DeclaredBy(docs, i, id);
    }
  }

  /** Documents are separated exactly when all but the last are, and the last
      declares nothing they declare. */
  lemma SeparatedLast(docs: seq<Document>)
    requires docs != []
    ensures Separated(docs) <==> Separated(docs[..|docs| - 1]) && !Redeclares(docs[..|docs| - 1], docs[|docs| - 1])
  {
    var n := |docs| - 1;
    var init := docs[..n];
    assert forall i :: 0 <= i < n ==> init[i] == docs[i];
    RedeclaresSome(init, docs[n]);
    if Separated(init) && !Redeclares(init, docs[n]) {
      forall i, j | 0 <= i < j < |docs| ensures !Clash(docs[i], docs[j]) {
        assert j < n ==> !Clash(init[i], init[j]);
        assert j == n ==> !Clash(init[i], docs[n]);
      }
    }
  }

  lemma MergeMaps(prior: Document, current: Document, id: string)
    requires Readable(prior) && Readable(current) && !SharedMapping(prior.packages.value, current.packages.value)
    requires Merge(prior, current).Some?
    ensures MapsName(PackagesOf(Merge(prior, current).value), id)
      <==> MapsName(PackagesOf(prior), id) || MapsName(PackagesOf(current), id)
  {
    MergeAllShape(prior.packages.value, current.packages.value);
    MergedMaps(prior.packages.value, current.packages.value, Merge(prior, current).value.packages.value, id);
  }

  ghost predicate DeclaresAll(stored: Document, docs: seq<Document>) {
    forall id :: MapsName(PackagesOf(stored), id) <==> Declared(docs, id)
  }

  /** The stored manifest is the join of the documents, and declares the provider
      mappings they declare. */
  ghost predicate StoresJoin(docs: seq<Document>)
    requires docs != [] && AllReadable(docs)
  {
    && (StoredAfter(docs).Some? <==> JoinAll(ManifestsOf(docs)).Some?)
    && (StoredAfter(docs).Some? ==>
          && Readable(StoredAfter(docs).value)
          && ManifestOf(StoredAfter(docs).value) == JoinAll(ManifestsOf(docs)).value
          && DeclaresAll(StoredAfter(docs).value, docs))
  }

  lemma RedeclaresStored(stored: Document, docs: seq<Document>, last: Document)
    requires DeclaresAll(stored, docs)
    ensures Clash(stored, last) <==> Redeclares(docs, last)
  {
    if Clash(stored, last) {
      var id :| MapsName(PackagesOf(stored), id) && MapsName(PackagesOf(last), id);
      assert Declared(docs, id);
    }
    if Redeclares(docs, last) {
      var id :| Declared(docs, id) && MapsName(PackagesOf(last), id);
      assert MapsName(PackagesOf(stored), id);
    }
  }

  lemma StoredOne(docs: seq<Document>)
    requires |docs| == 1 && AllReadable(docs)
    ensures StoresJoin(docs)
  {
    assert StoredAfter(docs) == Some(docs[0]);
    assert JoinAll(ManifestsOf(docs)) == Some(ManifestOf(docs[0]));
    DeclaresOne(docs);
  }

  lemma DeclaresOne(docs: seq<Document>)
    requires |docs| == 1
    ensures DeclaresAll(docs[0], docs)
  {
    forall id ensures MapsName(PackagesOf(docs[0]), id) <==> Declared(docs, id) {
      assert docs[..0] == [] && !Declared([], id);
    }
  }

  lemma MergeDeclares(before: Document, docs: seq<Document>)
    requires docs != [] && Readable(before) && DeclaresAll(before, docs[..|docs| - 1]) && Readable(docs[|docs| - 1])
    requires !SharedMapping(before.packages.value, docs[|docs| - 1].packages.value)
    requires Merge(before, docs[|docs| - 1]).Some?
    ensures DeclaresAll(Merge(before, docs[|docs| - 1]).value, docs)
  {
    var last := docs[|docs| - 1];
    forall id ensures MapsName(PackagesOf(Merge(before, last).value), id) <==> Declared(docs, id) {
      MergeMaps(before, last, id);
    }
  }

  lemma ManifestsInit(docs: seq<Document>)
    requires docs != [] && AllReadable(docs)
    ensures AllReadable(docs[..|docs| - 1]) && Readable(docs[|docs| - 1])
    ensures ManifestsOf(docs)[..|docs| - 1] == ManifestsOf(docs[..|docs| - 1])
  {
  }

  lemma StoredMore(docs: seq<Document>)
    requires |docs| >= 2 && AllReadable(docs) && AllReadable(docs[..|docs| - 1])
    requires StoresJoin(docs[..|docs| - 1]) && StoredAfter(docs[..|docs| - 1]).Some?
    requires !Redeclares(docs[..|docs| - 1], docs[|docs| - 1])
    ensures StoresJoin(docs)
  {
    var n := |docs| - 1;
    var before, last := StoredAfter(docs[..n]).value, docs[n];
    ManifestsInit(docs);
    RedeclaresStored(before, docs[..n], last);
    MergeIsJoin(before, last);
    if Merge(before, last).Some? {
      MergeDeclares(before, docs);
    }
  }

  lemma {:induction false} StoredIsJoin(docs: seq<Document>)
    requires docs != [] && AllReadable(docs) && Separated(docs)
    ensures StoresJoin(docs)
    decreases |docs|
  {
    if |docs| == 1 {
      StoredOne(docs);
    } else {
      ManifestsInit(docs);
      SeparatedLast(docs);
      StoredIsJoin(docs[..|docs| - 1]);
      if StoredAfter(docs[..|docs| - 1]).Some? {
        StoredMore(docs);
      }
    }
  }

  /** The same uploads in any order are accepted or refused alike, and leave the
      same manifest behind. They are accepted exactly when any two of them agree. */
  lemma UploadsCommute(p: seq<Document>, q: seq<Document>)
    requires p != [] && q != [] && AllReadable(p) && AllReadable(q) && forall doc :: doc in p <==> doc in q
    requires Separated(p) && Separated(q)
    ensures StoredAfter(p).Some? <==> Agreeing(ManifestsOf(p))
    ensures StoredAfter(p).Some? <==> StoredAfter(q).Some?
    ensures StoredAfter(p).Some? ==>
      && StoredAfter(p).value.packages.Some? && StoredAfter(q).value.packages.Some?
      && ManifestOf(StoredAfter(p).value) == ManifestOf(StoredAfter(q).value)
  {
    StoredIsJoin(p);
    StoredIsJoin(q);
    SameMembers(p, q);
    SameMembers(q, p);
    JoinAllAnyOrder(ManifestsOf(p), ManifestsOf(q));
    JoinAllExactly(ManifestsOf(p));
  }

  lemma SameMembers(p: seq<Document>, q: seq<Document>)
    requires AllReadable(p) && AllReadable(q) && forall doc :: doc in p ==> doc in q
    ensures forall m :: m in ManifestsOf(p) ==> m in ManifestsOf(q)
  {
    forall m | m in ManifestsOf(p) ensures m in ManifestsOf(q) {
      var i :| 0 <= i < |p| && ManifestsOf(p)[i] == m;
      assert p[i] in q;
      var j :| 0 <= j < |q| && q[j] == p[i];
      assert ManifestsOf(q)[j] == m;
    }
  }
}

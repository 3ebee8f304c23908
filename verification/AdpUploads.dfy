/** One release, several publish calls, each with a manifest of its own and perhaps an
    artifact: which sequences of calls are accepted, and what the stored manifest says
    once every upload has been bound and merged, in whatever order they came. */
module AdpUploads {
  import opened Text
  import opened Adp
  import opened AdpMerge
  import opened AdpJoin

  // ------------------------------------------------- binding, read abstractly

  /** An upload and the package its role names. */
  datatype Binding = Binding(id: string, upload: Upload)

  function KeySet(upload: Upload): set<string> { set key | key in upload.keys }

  function BindEntry(e: Entry, upload: Upload): Entry
    requires e.Detailed?
  {
    Detailed(e.rest,
             Some(SetKeys(e.from, upload.keys, Str(upload.url))),
             Some(SetKeys(e.sha256, upload.keys, Str(upload.sha256))),
             Some(SetKeys(e.archive, upload.keys, ArchiveSpec(upload))),
             e.platforms + KeySet(upload))
  }

  predicate Binds(m: Manifest, id: string) { id in m.entries && m.entries[id].Detailed? }

  function BindManifest(m: Manifest, b: Binding): Manifest
    requires Binds(m, b.id)
  {
    m.(entries := m.entries[b.id := BindEntry(m.entries[b.id], b.upload)])
  }

  predicate Clean(upload: Upload) { forall key :: key in upload.keys ==> key != "" && TrimSpace(key) == key }

  lemma PlatformKeyIsClean(key: string)
    requires key in PLATFORM_KEYS
    ensures key != "" && TrimSpace(key) == key
  {
    assert key[0] == 'l' || key[0] == 'm' || key[0] == 'w';
    assert key[|key| - 1] == '4';
    TrimmedIsFixed(key);
  }

  /** The keys an upload gets from its market platform are proper ADP keys. */
  lemma PlatformKeysAreClean(platform: string, key: string)
    requires key in PlatformKeysOf(platform)
    ensures key in PLATFORM_KEYS && key != "" && TrimSpace(key) == key
  {
    PlatformKeyIsClean(key);
  }

  /** Binding leaves every identifier alone: a package with a role is no provider mapping. */
  lemma BoundKeepsId(p: Package, upload: Upload)
    requires p.Spec? && BindingRole(p) == upload.role != ""
    ensures PackageId(BindPackage(p, upload)) == PackageId(p)
    ensures !ProviderMapping(p) && !ProviderMapping(BindPackage(p, upload))
  {
    assert "x-zenmind-artifact" in p.rest;
    assert "x-" <= "x-zenmind-artifact";
  }

  lemma BoundEntry(p: Package, upload: Upload)
    requires p.Spec? && Clean(upload)
    ensures EntryOf(BindPackage(p, upload)) == BindEntry(EntryOf(p), upload)
  {
    PlatformsClean(p);
    MergedPlatforms(PlatformList(p), upload.keys);
    assert (set x | x in upload.keys) == KeySet(upload);
  }

  lemma ReplaceOne(packages: seq<Package>, i: nat, p: Package)
    requires Keyed(packages) && i < |packages| && PackageId(p) == PackageId(packages[i])
    ensures Keyed(packages[i := p])
    ensures EntriesOf(packages[i := p]) == EntriesOf(packages)[PackageId(p).value := EntryOf(p)]
  {
    var next := packages[i := p];
    assert forall k :: 0 <= k < |next| ==> PackageId(next[k]) == PackageId(packages[k]);
    assert Keyed(next);
    ReplacedEntries(packages, next, i);
  }

  lemma ReplacedEntryAt(packages: seq<Package>, next: seq<Package>, i: nat, id: string)
    requires Keyed(packages) && Keyed(next) && |next| == |packages| && i < |packages|
    requires forall k :: 0 <= k < |next| ==> PackageId(next[k]) == PackageId(packages[k])
    requires forall k :: 0 <= k < |next| && k != i ==> next[k] == packages[k]
    ensures var expected := EntriesOf(packages)[PackageId(next[i]).value := EntryOf(next[i])];
      && (id in EntriesOf(next) <==> id in expected)
      && (id in expected ==> EntriesOf(next)[id] == expected[id])
  {
    SameNames(packages, next, id);
    EntryNamed(packages, id);
    EntryNamed(next, id);
    EntryAt(next, i, PackageId(next[i]).value);
    if Has(next, id) {
      var k :| 0 <= k < |next| && PackageId(next[k]) == Some(id);
      EntryAt(next, k, id);
      EntryAt(packages, k, id);
    }
  }

  lemma ReplacedEntries(packages: seq<Package>, next: seq<Package>, i: nat)
    requires Keyed(packages) && Keyed(next) && |next| == |packages| && i < |packages|
    requires forall k :: 0 <= k < |next| ==> PackageId(next[k]) == PackageId(packages[k])
    requires forall k :: 0 <= k < |next| && k != i ==> next[k] == packages[k]
    ensures EntriesOf(next) == EntriesOf(packages)[PackageId(next[i]).value := EntryOf(next[i])]
  {
    var found, expected := EntriesOf(next), EntriesOf(packages)[PackageId(next[i]).value := EntryOf(next[i])];
    forall id ensures (id in found <==> id in expected) && (id in expected ==> found[id] == expected[id]) {
      ReplacedEntryAt(packages, next, i, id);
    }
    SameMap(found, expected);
  }

  lemma SameNames(packages: seq<Package>, next: seq<Package>, id: string)
    requires |packages| == |next| && forall i :: 0 <= i < |packages| ==> PackageId(packages[i]) == PackageId(next[i])
    ensures Has(packages, id) <==> Has(next, id)
  {
    if Has(packages, id) {
      var i :| 0 <= i < |packages| && PackageId(packages[i]) == Some(id);
      assert PackageId(next[i]) == Some(id);
    }
    if Has(next, id) {
      var i :| 0 <= i < |next| && PackageId(next[i]) == Some(id);
      assert PackageId(packages[i]) == Some(id);
    }
  }

  /** The position of the package an upload binds to. */
  function Position(doc: Document, role: string): (i: nat)
    requires doc.packages.Some? && |Bound(doc.packages.value, role)| == 1
    ensures i < |doc.packages.value| && doc.packages.value[i].Spec? && BindingRole(doc.packages.value[i]) == role
  {
    BoundPositions(doc.packages.value, role);
    assert Bound(doc.packages.value, role)[0] in Bound(doc.packages.value, role);
    Bound(doc.packages.value, role)[0]
  }

  /** Binding leaves names and provider mappings as they are. */
  lemma BindKeepsNames(doc: Document, upload: Upload, k: nat)
    requires Bind(doc, upload).Some? && upload.role != "" && k < |doc.packages.value|
    ensures var next := Bind(doc, upload).value.packages.value;
      && |next| == |doc.packages.value|
      && PackageId(next[k]) == PackageId(doc.packages.value[k])
      && (ProviderMapping(next[k]) <==> ProviderMapping(doc.packages.value[k]))
  {
    var i := Position(doc, upload.role);
    BoundKeepsId(doc.packages.value[i], upload);
  }

  lemma BindKeepsReadable(doc: Document, upload: Upload)
    requires Bind(doc, upload).Some? && upload.role != ""
    ensures Readable(doc) <==> Readable(Bind(doc, upload).value)
  {
    var packages, next := doc.packages.value, Bind(doc, upload).value.packages.value;
    forall k | 0 <= k < |packages| ensures |next| == |packages| && PackageId(next[k]) == PackageId(packages[k]) {
      BindKeepsNames(doc, upload, k);
    }
    SameNamesKeyed(packages, next);
    SameNamesKeyed(next, packages);
  }

  lemma SameNamesKeyed(packages: seq<Package>, next: seq<Package>)
    requires |next| == |packages| && forall k :: 0 <= k < |packages| ==> PackageId(next[k]) == PackageId(packages[k])
    ensures Keyed(packages) ==> Keyed(next)
  {
  }

  lemma BindKeepsMaps(doc: Document, upload: Upload, id: string)
    requires Bind(doc, upload).Some? && upload.role != ""
    ensures MapsName(PackagesOf(Bind(doc, upload).value), id) <==> MapsName(PackagesOf(doc), id)
  {
    var packages, next := doc.packages.value, Bind(doc, upload).value.packages.value;
    forall k | 0 <= k < |packages|
      ensures |next| == |packages| && PackageId(next[k]) == PackageId(packages[k])
      ensures ProviderMapping(next[k]) <==> ProviderMapping(packages[k])
    {
      BindKeepsNames(doc, upload, k);
    }
    SameMaps(packages, next, id);
    SameMaps(next, packages, id);
  }

  lemma SameMaps(packages: seq<Package>, next: seq<Package>, id: string)
    requires |next| == |packages| && forall k :: 0 <= k < |packages| ==> PackageId(next[k]) == PackageId(packages[k])
    requires forall k :: 0 <= k < |packages| ==> (ProviderMapping(next[k]) <==> ProviderMapping(packages[k]))
    ensures MapsName(packages, id) ==> MapsName(next, id)
  {
    if MapsName(packages, id) {
      var k :| 0 <= k < |packages| && ProviderMapping(packages[k]) && PackageId(packages[k]) == Some(id);
      assert ProviderMapping(next[k]) && PackageId(next[k]) == Some(id);
    }
  }

  /** The package an upload binds to. */
  function Target(doc: Document, role: string): string
    requires Readable(doc) && |Bound(doc.packages.value, role)| == 1
  {
    PackageId(doc.packages.value[Position(doc, role)]).value
  }

  /** bindADPArtifact sets the upload's keys in the one package with its role, and
      nothing else. */
  lemma BindRefines(doc: Document, upload: Upload)
    requires Readable(doc) && Bind(doc, upload).Some? && upload.role != "" && Clean(upload)
    ensures |Bound(doc.packages.value, upload.role)| == 1
    ensures var id, next := Target(doc, upload.role), Bind(doc, upload).value;
      && Readable(next)
      && Binds(ManifestOf(doc), id)
      && ManifestOf(next) == BindManifest(ManifestOf(doc), Binding(id, upload))
  {
    var packages := doc.packages.value;
    var i := Position(doc, upload.role);
    BoundKeepsId(packages[i], upload);
    BoundEntry(packages[i], upload);
    EntryAt(packages, i, PackageId(packages[i]).value);
    ReplaceOne(packages, i, BindPackage(packages[i], upload));
  }

  // ---------------------------------------------------- all uploads together

  /** Every artifact bound into one manifest, one after the other. */
  function BindAll(m: Manifest, all: seq<Binding>): Manifest
    requires forall b :: b in all ==> Binds(m, b.id)
    ensures forall id :: Binds(m, id) ==> Binds(BindAll(m, all), id)
    ensures BindAll(m, all).entries.Keys == m.entries.Keys
  {
    if all == [] then m
    else BindManifest(BindAll(m, all[..|all| - 1]), all[|all| - 1])
  }

  predicate FreeOf(field: Option<Fields>, keys: set<string>) { field.Some? ==> field.value.Keys !! keys }

  /** The manifest has no entry of its own under the keys an upload sets. */
  predicate Fresh(m: Manifest, b: Binding)
    requires Binds(m, b.id)
  {
    var e := m.entries[b.id];
    FreeOf(e.from, KeySet(b.upload)) && FreeOf(e.sha256, KeySet(b.upload)) && FreeOf(e.archive, KeySet(b.upload))
  }

  predicate Distinct(all: seq<Binding>) {
    forall i, j :: 0 <= i < j < |all| && all[i].id == all[j].id ==> KeySet(all[i].upload) !! KeySet(all[j].upload)
  }

  predicate Uploadable(m: Manifest, all: seq<Binding>) {
    (forall b :: b in all ==> Binds(m, b.id) && Fresh(m, b)) && Distinct(all)
  }

  /** Binding fresh keys only adds. */
  lemma BindingAdds(m: Manifest, b: Binding)
    requires Binds(m, b.id) && Fresh(m, b)
    ensures Below(m, BindManifest(m, b))
  {
    forall id | id in m.entries ensures EntryBelow(m.entries[id], BindManifest(m, b).entries[id]) {
      EntryOrder(m.entries[id], m.entries[id], m.entries[id]);
    }
  }

  lemma SetKeysMonotone(a: Option<Fields>, x: Option<Fields>, keys: seq<string>, v: Value)
    requires FieldBelow(a, x)
    ensures FieldsBelow(SetKeys(a, keys, v), SetKeys(x, keys, v))
  {
  }

  lemma BindingMonotone(a: Manifest, x: Manifest, b: Binding)
    requires Below(a, x) && Binds(a, b.id)
    ensures Binds(x, b.id) && Below(BindManifest(a, b), BindManifest(x, b))
  {
    var e, f := a.entries[b.id], x.entries[b.id];
    SetKeysMonotone(e.from, f.from, b.upload.keys, Str(b.upload.url));
    SetKeysMonotone(e.sha256, f.sha256, b.upload.keys, Str(b.upload.sha256));
    SetKeysMonotone(e.archive, f.archive, b.upload.keys, ArchiveSpec(b.upload));
    assert EntryBelow(BindEntry(e, b.upload), BindEntry(f, b.upload));
  }

  /** Keys that no earlier upload set are still free. */
  lemma {:induction false} StillFresh(m: Manifest, all: seq<Binding>, b: Binding)
    requires (forall c :: c in all ==> Binds(m, c.id)) && Binds(m, b.id) && Fresh(m, b)
    requires forall c :: c in all && c.id == b.id ==> KeySet(c.upload) !! KeySet(b.upload)
    ensures Fresh(BindAll(m, all), b)
  {
    if all != [] {
      var n := |all| - 1;
      StillFresh(m, all[..n], b);
      assert all[n] in all;
    }
  }

  lemma UploadableInit(m: Manifest, all: seq<Binding>)
    requires Uploadable(m, all) && all != []
    ensures Uploadable(m, all[..|all| - 1])
    ensures Binds(m, all[|all| - 1].id) && Fresh(BindAll(m, all[..|all| - 1]), all[|all| - 1])
  {
    var n := |all| - 1;
    var init := all[..n];
    assert all[n] in all;
    forall c | c in init && c.id == all[n].id ensures KeySet(c.upload) !! KeySet(all[n].upload) {
      var i :| 0 <= i < n && init[i] == c;
      assert all[i] == c;
    }
    StillFresh(m, init, all[n]);
  }

  lemma {:induction false} BaseBelow(m: Manifest, all: seq<Binding>)
    requires Uploadable(m, all)
    ensures Below(m, BindAll(m, all))
  {
    if all == [] {
      BelowReflexive(m);
    } else {
      var n := |all| - 1;
      UploadableInit(m, all);
      BaseBelow(m, all[..n]);
      var before := BindAll(m, all[..n]);
      BindingAdds(before, all[n]);
      BelowTransitive(m, before, BindAll(m, all));
    }
  }

  /** Each upload's own manifest says nothing the joint one does not say. */
  lemma {:induction false} EachBelow(m: Manifest, all: seq<Binding>, i: nat)
    requires Uploadable(m, all) && i < |all|
    ensures Binds(m, all[i].id) && Below(BindManifest(m, all[i]), BindAll(m, all))
  {
    var n := |all| - 1;
    UploadableInit(m, all);
    var before := BindAll(m, all[..n]);
    if i == n {
      BaseBelow(m, all[..n]);
      BindingMonotone(m, before, all[n]);
    } else {
      EachBelow(m, all[..n], i);
      BindingAdds(before, all[n]);
      BelowTransitive(BindManifest(m, all[i]), before, BindAll(m, all));
    }
  }

  lemma SetKeysBelow(a: Option<Fields>, x: Option<Fields>, u: Fields, keys: seq<string>, v: Value)
    requires FieldsBelow(SetKeys(a, keys, v), u) && FieldBelow(x, Some(u))
    requires FreeOf(x, set key | key in keys)
    ensures FieldsBelow(SetKeys(x, keys, v), u)
  {
  }

  lemma BindingLeast(m: Manifest, x: Manifest, b: Binding, u: Manifest)
    requires Binds(m, b.id) && Binds(x, b.id) && Fresh(x, b)
    requires Below(x, u) && Below(BindManifest(m, b), u)
    ensures Below(BindManifest(x, b), u)
  {
    var e, f, g := m.entries[b.id], x.entries[b.id], u.entries[b.id];
    assert EntryBelow(BindEntry(e, b.upload), g) && EntryBelow(f, g);
    SetKeysBelow(e.from, f.from, g.from.value, b.upload.keys, Str(b.upload.url));
    SetKeysBelow(e.sha256, f.sha256, g.sha256.value, b.upload.keys, Str(b.upload.sha256));
    SetKeysBelow(e.archive, f.archive, g.archive.value, b.upload.keys, ArchiveSpec(b.upload));
    assert EntryBelow(BindEntry(f, b.upload), g);
  }

  /** The joint manifest is the least that says what every upload says. */
  lemma {:induction false} AllLeast(m: Manifest, all: seq<Binding>, u: Manifest)
    requires Uploadable(m, all) && Below(m, u)
    requires forall i :: 0 <= i < |all| ==> Binds(m, all[i].id) && Below(BindManifest(m, all[i]), u)
    ensures Below(BindAll(m, all), u)
  {
    if all != [] {
      var n := |all| - 1;
      UploadableInit(m, all);
      AllLeast(m, all[..n], u);
      BindingLeast(m, BindAll(m, all[..n]), all[n], u);
    }
  }

  // --------------------------------------------- manifests of their own

  /** Each manifest has the package its own upload binds to. */
  predicate BindEach(ms: seq<Manifest>, all: seq<Binding>) {
    |ms| == |all| && forall i :: 0 <= i < |ms| ==> Binds(ms[i], all[i].id)
  }

  function Bindings(ms: seq<Manifest>, all: seq<Binding>): seq<Manifest>
    requires BindEach(ms, all)
  {
    seq(|ms|, i requires 0 <= i < |ms| => BindManifest(ms[i], all[i]))
  }

  lemma FreshBelow(m: Manifest, x: Manifest, b: Binding)
    requires Below(m, x) && Binds(m, b.id) && Binds(x, b.id) && Fresh(x, b)
    ensures Fresh(m, b)
  {
    assert EntryBelow(m.entries[b.id], x.entries[b.id]);
  }

  lemma EachUnderJoint(ms: seq<Manifest>, all: seq<Binding>, m: Manifest, i: nat)
    requires BindEach(ms, all) && Uploadable(m, all) && i < |all| && Below(ms[i], m)
    ensures Below(BindManifest(ms[i], all[i]), BindAll(m, all))
  {
    BindingMonotone(ms[i], m, all[i]);
    EachBelow(m, all, i);
    BelowTransitive(BindManifest(ms[i], all[i]), BindManifest(m, all[i]), BindAll(m, all));
  }

  lemma BaseUnder(ms: seq<Manifest>, all: seq<Binding>, m: Manifest, u: Manifest, i: nat)
    requires BindEach(ms, all) && Uploadable(m, all) && i < |all| && Below(ms[i], m)
    requires Below(BindManifest(ms[i], all[i]), u)
    ensures Below(ms[i], u)
  {
    assert all[i] in all;
    FreshBelow(ms[i], m, all[i]);
    BindingAdds(ms[i], all[i]);
    BelowTransitive(ms[i], BindManifest(ms[i], all[i]), u);
  }

  /** The joint manifest is the least above every bound manifest. */
  lemma JointIsLeast(ms: seq<Manifest>, all: seq<Binding>, m: Manifest, u: Manifest)
    requires ms != [] && BindEach(ms, all) && Uploadable(m, all) && JoinAll(ms) == Some(m)
    requires forall i :: 0 <= i < |all| ==> Below(BindManifest(ms[i], all[i]), u)
    ensures Below(BindAll(m, all), u)
  {
    JoinAllIsUpper(ms);
    forall x | x in ms ensures Below(x, u) {
      var i :| 0 <= i < |ms| && ms[i] == x;
      BaseUnder(ms, all, m, u, i);
    }
    JoinAllIsLeast(ms, u);
    forall i | 0 <= i < |all| ensures Binds(m, all[i].id) && Below(BindManifest(m, all[i]), u) {
      assert all[i] in all;
      BindingLeast(ms[i], m, all[i], u);
    }
    AllLeast(m, all, u);
  }

  /** Uploads whose manifests agree, under distinct keys those manifests leave free,
      always merge, and together say exactly what binding every artifact into the
      joined manifest says. */
  lemma UploadsJoin(ms: seq<Manifest>, all: seq<Binding>, m: Manifest)
    requires ms != [] && BindEach(ms, all) && Uploadable(m, all) && JoinAll(ms) == Some(m)
    ensures JoinAll(Bindings(ms, all)) == Some(BindAll(m, all))
  {
    var each, joint := Bindings(ms, all), BindAll(m, all);
    JoinAllIsUpper(ms);
    forall x | x in each ensures Below(x, joint) {
      var i :| 0 <= i < |each| && each[i] == x;
      assert ms[i] in ms;
      EachUnderJoint(ms, all, m, i);
    }
    JoinAllIsLeast(each, joint);
    JoinAllIsUpper(each);
    var joined := JoinAll(each).value;
    forall i | 0 <= i < |all| ensures Below(BindManifest(ms[i], all[i]), joined) {
      assert each[i] in each;
    }
    JointIsLeast(ms, all, m, joined);
    BelowAntisymmetric(joined, joint);
  }

  // ---------------------------------------------------------------- content

  /** Each of the upload's keys maps to its location, hash and archive. */
  ghost predicate Holds(m: Manifest, b: Binding) {
    && Binds(m, b.id)
    && var e := m.entries[b.id];
      && e.from.Some? && e.sha256.Some? && e.archive.Some?
      && forall key :: key in b.upload.keys ==>
           && FieldOf(e.from.value, key) == Some(Str(b.upload.url))
           && FieldOf(e.sha256.value, key) == Some(Str(b.upload.sha256))
           && FieldOf(e.archive.value, key) == Some(ArchiveSpec(b.upload))
           && key in e.platforms
  }

  lemma BoundHolds(m: Manifest, b: Binding, u: Manifest)
    requires Binds(m, b.id) && Below(BindManifest(m, b), u)
    ensures Holds(u, b)
  {
    var own, e := BindEntry(m.entries[b.id], b.upload), u.entries[b.id];
    assert EntryBelow(own, e);
    forall key | key in b.upload.keys
      ensures key in own.from.value && key in own.sha256.value && key in own.archive.value && key in own.platforms {}
  }

  /** In the joint manifest every upload is recorded. */
  lemma JointContent(m: Manifest, all: seq<Binding>, i: nat)
    requires Uploadable(m, all) && i < |all|
    ensures Holds(BindAll(m, all), all[i])
  {
    EachBelow(m, all, i);
    BoundHolds(m, all[i], BindAll(m, all));
  }

  // ---------------------------------------------------------- publish calls

  /** One publish call: its manifest, and its artifact if it has one. */
  datatype Call = Call(doc: Document, upload: Option<Upload>)

  predicate AllPrepared(calls: seq<Call>) {
    forall i :: 0 <= i < |calls| ==> Prepared(calls[i].doc, calls[i].upload).Some?
  }

  /** The manifests with their own artifacts bound. */
  function PreparedDocs(calls: seq<Call>): seq<Document>
    requires AllPrepared(calls)
  {
    seq(|calls|, i requires 0 <= i < |calls| => Prepared(calls[i].doc, calls[i].upload).value)
  }

  predicate EachValid(docs: seq<Document>) { forall i :: 0 <= i < |docs| ==> Valid(docs[i]) }

  /** Every call passes the first validation. */
  predicate AllReady(calls: seq<Call>) { AllPrepared(calls) && EachValid(PreparedDocs(calls)) }

  /** One call after the other, each validating its own manifest and the merged one. */
  function Pipeline(calls: seq<Call>): Option<Document>
    requires calls != []
  {
    var n := |calls| - 1;
    if n == 0 then Normalize(calls[0].doc, None, calls[0].upload)
    else
      var before := Pipeline(calls[..n]);
      if before.None? then None else Normalize(calls[n].doc, before, calls[n].upload)
  }

  lemma ValidIsReadable(docs: seq<Document>)
    requires EachValid(docs)
    ensures AllReadable(docs)
  {
  }

  lemma PreparedInit(calls: seq<Call>)
    requires calls != [] && AllPrepared(calls)
    ensures AllPrepared(calls[..|calls| - 1])
    ensures PreparedDocs(calls)[..|calls| - 1] == PreparedDocs(calls[..|calls| - 1])
    ensures PreparedDocs(calls)[|calls| - 1] == Prepared(calls[|calls| - 1].doc, calls[|calls| - 1].upload).value
  {
  }

  lemma ValidInit(docs: seq<Document>)
    requires docs != []
    ensures EachValid(docs) <==> EachValid(docs[..|docs| - 1]) && Valid(docs[|docs| - 1])
  {
    var n := |docs| - 1;
    forall i | 0 <= i < |docs| ensures EachValid(docs[..n]) && Valid(docs[n]) ==> Valid(docs[i]) {
      assert i < n ==> docs[..n][i] == docs[i];
    }
    assert forall i :: 0 <= i < n ==> docs[..n][i] == docs[i];
  }

  /** One more call over a valid stored manifest: the second validation rejects
      exactly a provider mapping declared again. */
  lemma PipelineStep(call: Call, stored: Document, docs: seq<Document>)
    requires Valid(stored) && DeclaresAll(stored, docs)
    requires Prepared(call.doc, call.upload).Some? && Valid(Prepared(call.doc, call.upload).value)
    ensures var current := Prepared(call.doc, call.upload).value;
      && Normalize(call.doc, Some(stored), call.upload)
        == (if Redeclares(docs, current) then None else Merge(stored, current))
      && (Normalize(call.doc, Some(stored), call.upload).Some? ==>
        Valid(Normalize(call.doc, Some(stored), call.upload).value))
  {
    var current := Prepared(call.doc, call.upload).value;
    RedeclaresStored(stored, docs, current);
    SecondValidationDecides(call.doc, stored, call.upload);
  }

  /** What the pipeline has stored once the calls were accepted. */
  ghost predicate StoredBy(calls: seq<Call>)
    requires calls != [] && AllPrepared(calls)
  {
    && Pipeline(calls) == StoredAfter(PreparedDocs(calls))
    && (Pipeline(calls).Some? ==> Valid(Pipeline(calls).value))
  }

  lemma PipelineOnce(calls: seq<Call>)
    requires |calls| == 1 && AllReady(calls)
    ensures StoredBy(calls) && Separated(PreparedDocs(calls))
  {
  }

  lemma StoredDeclares(calls: seq<Call>)
    requires calls != [] && AllReady(calls) && Separated(PreparedDocs(calls)) && StoredBy(calls)
      && Pipeline(calls).Some?
    ensures DeclaresAll(Pipeline(calls).value, PreparedDocs(calls))
  {
    ValidIsReadable(PreparedDocs(calls));
    StoredIsJoin(PreparedDocs(calls));
  }

  /** Calls that pass the first validation, over separated manifests, lose nothing to
      the second: the pipeline accepts what merges, and what it stores is valid. */
  lemma {:induction false} PipelineIsMerge(calls: seq<Call>)
    requires calls != [] && AllReady(calls) && Separated(PreparedDocs(calls))
    ensures StoredBy(calls)
    decreases |calls|
  {
    if |calls| == 1 {
      PipelineOnce(calls);
    } else {
      ReadyInit(calls);
      PipelineIsMerge(calls[..|calls| - 1]);
      if Pipeline(calls[..|calls| - 1]).Some? {
        NormalizeNext(calls);
      }
      PipelineNext(calls, PreparedDocs(calls));
    }
  }

  lemma ReadyInit(calls: seq<Call>)
    requires |calls| >= 2 && AllReady(calls) && Separated(PreparedDocs(calls))
    ensures AllReady(calls[..|calls| - 1]) && Separated(PreparedDocs(calls[..|calls| - 1]))
    ensures PreparedDocs(calls)[..|calls| - 1] == PreparedDocs(calls[..|calls| - 1])
  {
    PreparedInit(calls);
    ValidInit(PreparedDocs(calls));
    SeparatedLast(PreparedDocs(calls));
  }

  /** What the last call makes of what is stored. */
  ghost predicate MergesLast(calls: seq<Call>, last: Document)
    requires |calls| >= 2 && Pipeline(calls[..|calls| - 1]).Some?
  {
    var stored, call := Pipeline(calls[..|calls| - 1]).value, calls[|calls| - 1];
    && Normalize(call.doc, Some(stored), call.upload) == Merge(stored, last)
    && (Merge(stored, last).Some? ==> Valid(Merge(stored, last).value))
  }

  lemma NormalizeNext(calls: seq<Call>)
    requires |calls| >= 2 && AllReady(calls) && Separated(PreparedDocs(calls))
    requires AllReady(calls[..|calls| - 1]) && Separated(PreparedDocs(calls[..|calls| - 1]))
    requires StoredBy(calls[..|calls| - 1]) && Pipeline(calls[..|calls| - 1]).Some?
    ensures MergesLast(calls, PreparedDocs(calls)[|calls| - 1])
  {
    LastFits(calls);
    StoredDeclares(calls[..|calls| - 1]);
    PipelineStep(calls[|calls| - 1], Pipeline(calls[..|calls| - 1]).value, PreparedDocs(calls[..|calls| - 1]));
  }

  lemma LastFits(calls: seq<Call>)
    requires |calls| >= 2 && AllReady(calls) && Separated(PreparedDocs(calls))
    ensures AllPrepared(calls[..|calls| - 1])
    ensures var last := Prepared(calls[|calls| - 1].doc, calls[|calls| - 1].upload);
      && last == Some(PreparedDocs(calls)[|calls| - 1]) && Valid(last.value)
      && !Redeclares(PreparedDocs(calls[..|calls| - 1]), last.value)
  {
    PreparedInit(calls);
    SeparatedLast(PreparedDocs(calls));
  }

  lemma PipelineNext(calls: seq<Call>, docs: seq<Document>)
    requires |calls| == |docs| >= 2
    requires Pipeline(calls[..|calls| - 1]) == StoredAfter(docs[..|calls| - 1])
    requires Pipeline(calls[..|calls| - 1]).Some? ==> MergesLast(calls, docs[|calls| - 1])
    ensures Pipeline(calls) == StoredAfter(docs) && (Pipeline(calls).Some? ==> Valid(Pipeline(calls).value))
  {
  }

  lemma LastPrepared(calls: seq<Call>)
    requires calls != [] && AllPrepared(calls[..|calls| - 1])
    requires Prepared(calls[|calls| - 1].doc, calls[|calls| - 1].upload).Some?
    ensures AllPrepared(calls)
  {
    forall i | 0 <= i < |calls| ensures Prepared(calls[i].doc, calls[i].upload).Some? {
      if i < |calls| - 1 {
        PreparedBefore(calls[..|calls| - 1], calls[i], i);
      }
    }
  }

  lemma PreparedBefore(calls: seq<Call>, call: Call, i: nat)
    requires AllPrepared(calls) && i < |calls| && calls[i] == call
    ensures Prepared(call.doc, call.upload).Some?
  {
  }

  /** The pipeline accepts no call that fails the first validation, and no provider
      mapping twice. */
  lemma {:induction false} PipelineNeeds(calls: seq<Call>)
    requires calls != [] && Pipeline(calls).Some?
    ensures AllReady(calls) && Separated(PreparedDocs(calls))
    decreases |calls|
  {
    if |calls| == 1 {
      OnceNeeds(calls);
    } else {
      PipelineNeeds(calls[..|calls| - 1]);
      LastNeeds(calls);
      LastReady(calls);
    }
  }

  lemma OnceNeeds(calls: seq<Call>)
    requires |calls| == 1 && Pipeline(calls).Some?
    ensures AllReady(calls) && Separated(PreparedDocs(calls))
  {
    NormalizeAlone(calls[0].doc, calls[0].upload);
    OneReady(calls);
  }

  lemma NormalizeAlone(doc: Document, upload: Option<Upload>)
    requires Normalize(doc, None, upload).Some?
    ensures Prepared(doc, upload).Some? && Valid(Prepared(doc, upload).value)
  {
  }

  lemma OneReady(calls: seq<Call>)
    requires |calls| == 1 && Prepared(calls[0].doc, calls[0].upload).Some?
    requires Valid(Prepared(calls[0].doc, calls[0].upload).value)
    ensures AllReady(calls) && Separated(PreparedDocs(calls))
  {
    OnePrepared(calls);
    OneValid(PreparedDocs(calls));
  }

  lemma OnePrepared(calls: seq<Call>)
    requires |calls| == 1 && Prepared(calls[0].doc, calls[0].upload).Some?
    ensures AllPrepared(calls) && |PreparedDocs(calls)| == 1
    ensures PreparedDocs(calls)[0] == Prepared(calls[0].doc, calls[0].upload).value
  {
  }

  lemma OneValid(docs: seq<Document>)
    requires |docs| == 1 && Valid(docs[0])
    ensures EachValid(docs) && Separated(docs)
  {
    OneSeparated(docs);
    forall i | 0 <= i < |docs| ensures Valid(docs[i]) {
      assert docs[i] == docs[0];
    }
  }

  lemma OneSeparated(docs: seq<Document>)
    requires |docs| == 1
    ensures Separated(docs)
  {
  }

  lemma LastReady(calls: seq<Call>)
    requires |calls| >= 2 && AllReady(calls[..|calls| - 1]) && Separated(PreparedDocs(calls[..|calls| - 1]))
    requires var last := Prepared(calls[|calls| - 1].doc, calls[|calls| - 1].upload);
      last.Some? && Valid(last.value) && !Redeclares(PreparedDocs(calls[..|calls| - 1]), last.value)
    ensures AllReady(calls) && Separated(PreparedDocs(calls))
  {
    LastPrepared(calls);
    PreparedInit(calls);
    ValidInit(PreparedDocs(calls));
    SeparatedLast(PreparedDocs(calls));
  }

  lemma LastNeeds(calls: seq<Call>)
    requires |calls| >= 2 && AllReady(calls[..|calls| - 1]) && Separated(PreparedDocs(calls[..|calls| - 1]))
    requires Pipeline(calls).Some?
    ensures var last := Prepared(calls[|calls| - 1].doc, calls[|calls| - 1].upload);
      last.Some? && Valid(last.value) && !Redeclares(PreparedDocs(calls[..|calls| - 1]), last.value)
  {
    var n := |calls| - 1;
    PipelineIsMerge(calls[..n]);
    StoredDeclares(calls[..n]);
    PipelineStep(calls[n], Pipeline(calls[..n]).value, PreparedDocs(calls[..n]));
  }

  /** Each call is valid by itself, no provider mapping is declared twice, and any two
      manifests agree. */
  ghost predicate Admissible(calls: seq<Call>) {
    && AllReady(calls)
    && AllReadable(PreparedDocs(calls))
    && Separated(PreparedDocs(calls))
    && Agreeing(ManifestsOf(PreparedDocs(calls)))
  }

  /** Publishing succeeds exactly for admissible calls, and stores a valid manifest
      that says what all of them say. */
  lemma PipelineExactly(calls: seq<Call>)
    requires calls != []
    ensures Pipeline(calls).Some? <==> Admissible(calls)
    ensures Pipeline(calls).Some? ==>
      && Valid(Pipeline(calls).value)
      && JoinAll(ManifestsOf(PreparedDocs(calls))) == Some(ManifestOf(Pipeline(calls).value))
  {
    if Pipeline(calls).Some? {
      PipelineNeeds(calls);
    }
    if AllReady(calls) && Separated(PreparedDocs(calls)) {
      PipelineIsMerge(calls);
      ValidIsReadable(PreparedDocs(calls));
      StoredIsJoin(PreparedDocs(calls));
      JoinAllExactly(ManifestsOf(PreparedDocs(calls)));
    }
  }

  // -------------------------------------------------------------- any order

  /** The same calls in another order; a call may come twice. */
  predicate Reordered(p: seq<Call>, q: seq<Call>) { multiset(p) == multiset(q) }

  lemma SameCalls(p: seq<Call>, q: seq<Call>)
    requires Reordered(p, q)
    ensures forall c :: c in p <==> c in q
  {
    forall c ensures c in p <==> c in q {
      assert c in p <==> c in multiset(p);
      assert c in q <==> c in multiset(q);
    }
  }

  lemma OccursTwice(calls: seq<Call>, i: nat, j: nat)
    requires i < j < |calls| && calls[i] == calls[j]
    ensures multiset(calls)[calls[i]] >= 2
  {
    assert calls == calls[..j] + [calls[j]] + calls[j + 1..];
    assert calls[..j][i] == calls[i];
    assert calls[i] in multiset(calls[..j]);
  }

  lemma TwoPositions(calls: seq<Call>, c: Call) returns (k: nat, l: nat)
    requires multiset(calls)[c] >= 2
    ensures k < |calls| && l < |calls| && k != l && calls[k] == c && calls[l] == c
  {
    k := At(calls, c);
    var before, later := calls[..k], calls[k + 1..];
    assert calls == before + [c] + later;
    assert multiset(calls) == multiset(before) + multiset{c} + multiset(later);
    if c in before {
      l := At(before, c);
    } else {
      var m := At(later, c);
      l := k + 1 + m;
    }
  }

  /** Two positions of one order are two positions of the other. */
  lemma MatchPositions(p: seq<Call>, q: seq<Call>, i: nat, j: nat) returns (k: nat, l: nat)
    requires Reordered(p, q) && i < j < |q|
    ensures k < |p| && l < |p| && k != l && p[k] == q[i] && p[l] == q[j]
  {
    if q[i] == q[j] {
      OccursTwice(q, i, j);
      k, l := TwoPositions(p, q[i]);
    } else {
      SameCalls(p, q);
      k := At(p, q[i]);
      l := At(p, q[j]);
    }
  }

  lemma ReadyAnyOrder(p: seq<Call>, q: seq<Call>)
    requires Reordered(p, q) && AllReady(p)
    ensures AllReady(q)
  {
    SameCalls(p, q);
    forall j | 0 <= j < |q| ensures Prepared(q[j].doc, q[j].upload).Some? {
      var i := At(p, q[j]);
    }
    forall j | 0 <= j < |q| ensures Valid(PreparedDocs(q)[j]) {
      var i := At(p, q[j]);
      assert PreparedDocs(p)[i] == PreparedDocs(q)[j];
    }
  }

  lemma At(calls: seq<Call>, call: Call) returns (i: nat)
    requires call in calls
    ensures i < |calls| && calls[i] == call
  {
    i :| 0 <= i < |calls| && calls[i] == call;
  }

  lemma ClashSymmetric(a: Document, b: Document)
    ensures Clash(a, b) ==> Clash(b, a)
  {
    if Clash(a, b) {
      var id :| MapsName(PackagesOf(a), id) && MapsName(PackagesOf(b), id);
      assert MapsName(PackagesOf(b), id) && MapsName(PackagesOf(a), id);
    }
  }

  lemma SeparatedAt(docs: seq<Document>, k: nat, l: nat)
    requires Separated(docs) && k < |docs| && l < |docs| && k != l
    ensures !Clash(docs[k], docs[l])
  {
    if l < k {
      ClashSymmetric(docs[k], docs[l]);
    }
  }

  lemma SeparatedAnyOrder(p: seq<Call>, q: seq<Call>)
    requires Reordered(p, q) && AllPrepared(p) && AllPrepared(q) && Separated(PreparedDocs(p))
    ensures Separated(PreparedDocs(q))
  {
    var before, after := PreparedDocs(p), PreparedDocs(q);
    forall i, j | 0 <= i < j < |q| ensures !Clash(after[i], after[j]) {
      var k, l := MatchPositions(p, q, i, j);
      assert before[k] == after[i] && before[l] == after[j];
      SeparatedAt(before, k, l);
    }
  }

  lemma DocsAnyOrder(p: seq<Call>, q: seq<Call>)
    requires AllPrepared(p) && AllPrepared(q) && forall c :: c in p ==> c in q
    ensures forall d :: d in PreparedDocs(p) ==> d in PreparedDocs(q)
  {
    forall d | d in PreparedDocs(p) ensures d in PreparedDocs(q) {
      var i :| 0 <= i < |p| && PreparedDocs(p)[i] == d;
      var j := At(q, p[i]);
      assert PreparedDocs(q)[j] == d;
    }
  }

  lemma AcceptedAnyOrder(p: seq<Call>, q: seq<Call>)
    requires p != [] && q != [] && Reordered(p, q) && Pipeline(p).Some?
    ensures Pipeline(q).Some? && Pipeline(p).value.packages.Some? && Pipeline(q).value.packages.Some?
    ensures ManifestOf(Pipeline(q).value) == ManifestOf(Pipeline(p).value)
  {
    PipelineExactly(p);
    SameCalls(p, q);
    ReadyAnyOrder(p, q);
    SeparatedAnyOrder(p, q);
    PipelineIsMerge(p);
    PipelineIsMerge(q);
    ValidIsReadable(PreparedDocs(q));
    DocsAnyOrder(p, q);
    DocsAnyOrder(q, p);
    UploadsCommute(PreparedDocs(p), PreparedDocs(q));
  }

  /** The order of the publish calls decides neither whether they are accepted nor
      what is stored. */
  lemma PipelineAnyOrder(p: seq<Call>, q: seq<Call>)
    requires p != [] && q != [] && Reordered(p, q)
    ensures Pipeline(p).Some? <==> Pipeline(q).Some?
    ensures Pipeline(p).Some? ==>
      && Pipeline(p).value.packages.Some? && Pipeline(q).value.packages.Some?
      && ManifestOf(Pipeline(p).value) == ManifestOf(Pipeline(q).value)
  {
    if Pipeline(p).Some? {
      AcceptedAnyOrder(p, q);
    }
    if Pipeline(q).Some? {
      AcceptedAnyOrder(q, p);
    }
  }

  // -------------------------------------------------------- calls that upload

  /** The call has an artifact; its role and keys are as the server makes them. */
  predicate HasArtifact(c: Call) { c.upload.Some? && c.upload.value.role != "" && Clean(c.upload.value) }

  /** And its manifest has a package to bind it to. */
  predicate Uploads(c: Call) {
    HasArtifact(c) && Readable(c.doc) && Bind(c.doc, c.upload.value).Some?
  }

  predicate AllUpload(calls: seq<Call>) { forall i :: 0 <= i < |calls| ==> Uploads(calls[i]) }

  lemma TargetExists(doc: Document, upload: Upload)
    requires Readable(doc) && Bind(doc, upload).Some?
    ensures |Bound(doc.packages.value, upload.role)| == 1
  {
  }

  function BindingOf(c: Call): Binding
    requires Uploads(c)
  {
    TargetExists(c.doc, c.upload.value);
    Binding(Target(c.doc, c.upload.value.role), c.upload.value)
  }

  function BindingsOf(calls: seq<Call>): seq<Binding>
    requires AllUpload(calls)
  {
    seq(|calls|, i requires 0 <= i < |calls| => BindingOf(calls[i]))
  }

  /** The manifests as they were sent. */
  function Sent(calls: seq<Call>): (docs: seq<Document>)
    requires AllUpload(calls)
    ensures AllReadable(docs)
  {
    seq(|calls|, i requires 0 <= i < |calls| => calls[i].doc)
  }

  lemma CallBinds(c: Call)
    requires Uploads(c)
    ensures Prepared(c.doc, c.upload).Some? && Readable(Prepared(c.doc, c.upload).value)
    ensures Binds(ManifestOf(c.doc), BindingOf(c).id)
    ensures ManifestOf(Prepared(c.doc, c.upload).value) == BindManifest(ManifestOf(c.doc), BindingOf(c))
  {
    BindRefines(c.doc, c.upload.value);
  }

  lemma UploadsAreBindings(calls: seq<Call>)
    requires AllUpload(calls)
    ensures AllPrepared(calls) && AllReadable(PreparedDocs(calls))
    ensures BindEach(ManifestsOf(Sent(calls)), BindingsOf(calls))
    ensures ManifestsOf(PreparedDocs(calls)) == Bindings(ManifestsOf(Sent(calls)), BindingsOf(calls))
  {
    forall i | 0 <= i < |calls|
      ensures Prepared(calls[i].doc, calls[i].upload).Some? && Readable(Prepared(calls[i].doc, calls[i].upload).value)
      ensures Binds(ManifestOf(calls[i].doc), BindingOf(calls[i]).id)
      ensures ManifestOf(Prepared(calls[i].doc, calls[i].upload).value)
        == BindManifest(ManifestOf(calls[i].doc), BindingOf(calls[i]))
    {
      CallBinds(calls[i]);
    }
  }

  lemma BoundShares(c: Call, d: Call)
    requires Uploads(c) && Uploads(d)
    ensures Clash(Bind(c.doc, c.upload.value).value, Bind(d.doc, d.upload.value).value) ==> Clash(c.doc, d.doc)
  {
    var a, b := Bind(c.doc, c.upload.value).value, Bind(d.doc, d.upload.value).value;
    if Clash(a, b) {
      var id :| MapsName(PackagesOf(a), id) && MapsName(PackagesOf(b), id);
      BindKeepsMaps(c.doc, c.upload.value, id);
      BindKeepsMaps(d.doc, d.upload.value, id);
    }
  }

  lemma SentSeparated(calls: seq<Call>)
    requires AllUpload(calls) && AllPrepared(calls) && Separated(Sent(calls))
    ensures Separated(PreparedDocs(calls))
  {
    forall i, j | 0 <= i < j < |calls| ensures !Clash(PreparedDocs(calls)[i], PreparedDocs(calls)[j]) {
      assert !Clash(Sent(calls)[i], Sent(calls)[j]);
      BoundShares(calls[i], calls[j]);
    }
  }

  /** Whenever calls are accepted, each upload's keys map to exactly its location, hash
      and archive in the stored manifest. */
  lemma StoredContent(calls: seq<Call>, i: nat)
    requires calls != [] && Pipeline(calls).Some? && i < |calls| && HasArtifact(calls[i])
    ensures Uploads(calls[i]) && Pipeline(calls).value.packages.Some?
    ensures Holds(ManifestOf(Pipeline(calls).value), BindingOf(calls[i]))
  {
    AcceptedUploads(calls, i);
    StoredKeepsAll(calls, i);
    CallContent(calls[i], ManifestOf(Pipeline(calls).value));
  }

  lemma AcceptedUploads(calls: seq<Call>, i: nat)
    requires calls != [] && Pipeline(calls).Some? && i < |calls| && HasArtifact(calls[i])
    ensures Uploads(calls[i])
  {
    PipelineExactly(calls);
    assert Valid(PreparedDocs(calls)[i]);
    BindKeepsReadable(calls[i].doc, calls[i].upload.value);
  }

  /** And nothing any call said is lost or changed. */
  lemma StoredKeepsAll(calls: seq<Call>, i: nat)
    requires calls != [] && Pipeline(calls).Some? && i < |calls|
    ensures Pipeline(calls).value.packages.Some?
    ensures Prepared(calls[i].doc, calls[i].upload).Some?
      && Prepared(calls[i].doc, calls[i].upload).value.packages.Some?
    ensures Below(ManifestOf(Prepared(calls[i].doc, calls[i].upload).value), ManifestOf(Pipeline(calls).value))
  {
    PipelineExactly(calls);
    EachBelowStored(PreparedDocs(calls), ManifestOf(Pipeline(calls).value), i);
  }

  lemma EachBelowStored(docs: seq<Document>, stored: Manifest, i: nat)
    requires AllReadable(docs) && i < |docs| && JoinAll(ManifestsOf(docs)) == Some(stored)
    ensures Below(ManifestOf(docs[i]), stored)
  {
    JoinAllIsUpper(ManifestsOf(docs));
    assert ManifestsOf(docs)[i] in ManifestsOf(docs);
  }

  lemma CallContent(c: Call, stored: Manifest)
    requires Uploads(c) && Prepared(c.doc, c.upload).Some? && Prepared(c.doc, c.upload).value.packages.Some?
    requires Below(ManifestOf(Prepared(c.doc, c.upload).value), stored)
    ensures Holds(stored, BindingOf(c))
  {
    CallBinds(c);
    BoundHolds(ManifestOf(c.doc), BindingOf(c), stored);
  }

  /** The merge alone: uploads whose manifests agree, under distinct keys those
      manifests leave free, all merge into the joined manifest with every artifact bound. */
  lemma StoredManifest(calls: seq<Call>, m: Manifest)
    requires calls != [] && AllUpload(calls) && Separated(Sent(calls))
    requires JoinAll(ManifestsOf(Sent(calls))) == Some(m) && Uploadable(m, BindingsOf(calls))
    ensures AllPrepared(calls) && StoredAfter(PreparedDocs(calls)).Some?
    ensures var stored := StoredAfter(PreparedDocs(calls)).value;
      stored.packages.Some? && ManifestOf(stored) == BindAll(m, BindingsOf(calls))
  {
    UploadsAreBindings(calls);
    SentSeparated(calls);
    UploadsJoin(ManifestsOf(Sent(calls)), BindingsOf(calls), m);
    StoredIsJoin(PreparedDocs(calls));
  }

  /** With both validations: such calls, each valid by itself, succeed in any order,
      and leave a valid manifest that says what binding every artifact into the joined
      manifest says. */
  lemma PublishedManifest(calls: seq<Call>, order: seq<Call>, m: Manifest)
    requires calls != [] && order != [] && Reordered(calls, order)
    requires AllUpload(calls) && AllReady(calls) && Separated(Sent(calls))
    requires JoinAll(ManifestsOf(Sent(calls))) == Some(m) && Uploadable(m, BindingsOf(calls))
    ensures Pipeline(order).Some? && Valid(Pipeline(order).value)
    ensures ManifestOf(Pipeline(order).value) == BindAll(m, BindingsOf(calls))
  {
    StoredManifest(calls, m);
    SentSeparated(calls);
    PipelineIsMerge(calls);
    PipelineAnyOrder(calls, order);
    PipelineExactly(order);
  }
}

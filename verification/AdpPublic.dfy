/** What the public reads of a release: the manifest is sound, and gives each file of the
    calls it was made of, told by the columns of the file alone. */
module AdpPublic {
  import opened Text
  import opened Market
  import opened Adp
  import opened AdpJoin
  import opened AdpUploads
  import opened AdpRelease
  import opened AdpGuarantees
  import opened Locations

  // --------------------------------------------------------------- platforms

  /** An operating system of this name, with an architecture in any of its spellings. */
  predicate Under(platform: string, os: string, arch: Arch) {
    match arch
    case X64 => platform == os + "-x64" || platform == os + "-amd64"
    case Arm64 => platform == os + "-arm64"
  }

  predicate Spelled(platform: string, os: Os, arch: Arch) {
    match os
    case Linux => Under(platform, "linux", arch)
    case MacOs => Under(platform, "macos", arch) || Under(platform, "darwin", arch)
    case Windows => Under(platform, "windows", arch)
  }

  /** A file for every platform serves all keys; one for an operating system and an
      architecture, in any of their spellings, serves that key. */
  ghost predicate ForKey(platform: string, key: string) {
    if platform == "universal" then KnownKey(key)
    else exists os: Os, arch: Arch :: Spelled(platform, os, arch) && key == KeyName(os, arch)
  }

  /** The keys of a market platform. */
  lemma KeysOfPlatform(platform: string, key: string)
    ensures key in PlatformKeysOf(platform) <==> ForKey(SanitizePlatform(platform), key)
  {
    var clean := SanitizePlatform(platform);
    if clean == "universal" {
      KeysAreKnown(key);
      assert key in PLATFORM_KEYS ==> key in PlatformKeysOf(platform);
    } else {
      forall os: Os, arch: Arch | Spelled(clean, os, arch) ensures PlatformKeysOf(platform) == [KeyName(os, arch)] {
        RowOfTable(platform, os, arch);
      }
      if key in PlatformKeysOf(platform) {
        var os, arch := RowFor(clean);
      }
    }
  }

  lemma RowOfTable(platform: string, os: Os, arch: Arch)
    requires Spelled(SanitizePlatform(platform), os, arch)
    ensures PlatformKeysOf(platform) == [KeyName(os, arch)]
  {
    var clean := SanitizePlatform(platform);
    KeyNames();
    match (os, arch)
    case (Linux, X64) => LinuxX64(clean);
    case (Linux, Arm64) => LinuxArm64(clean);
    case (MacOs, X64) => MacOsX64(clean);
    case (MacOs, Arm64) => MacOsArm64(clean);
    case (Windows, X64) => WindowsX64(clean);
    case (Windows, Arm64) => WindowsArm64(clean);
  }

  lemma KeyNames()
    ensures KeyName(Linux, X64) == "linux-x64" && KeyName(Linux, Arm64) == "linux-arm64"
    ensures KeyName(MacOs, X64) == "macos-x64" && KeyName(MacOs, Arm64) == "macos-arm64"
    ensures KeyName(Windows, X64) == "windows-x64" && KeyName(Windows, Arm64) == "windows-arm64"
  {
  }

  lemma LinuxX64(clean: string)
    requires Spelled(clean, Linux, X64)
    ensures KeysOfSpelling(clean) == ["linux-x64"]
  {
    assert "linux" + "-x64" == "linux-x64" && "linux" + "-amd64" == "linux-amd64";
  }

  lemma LinuxArm64(clean: string)
    requires Spelled(clean, Linux, Arm64)
    ensures KeysOfSpelling(clean) == ["linux-arm64"]
  {
    assert "linux" + "-arm64" == "linux-arm64";
  }

  lemma MacOsX64(clean: string)
    requires Spelled(clean, MacOs, X64)
    ensures KeysOfSpelling(clean) == ["macos-x64"]
  {
    assert "macos" + "-x64" == "macos-x64" && "macos" + "-amd64" == "macos-amd64";
    assert "darwin" + "-x64" == "darwin-x64" && "darwin" + "-amd64" == "darwin-amd64";
  }

  lemma MacOsArm64(clean: string)
    requires Spelled(clean, MacOs, Arm64)
    ensures KeysOfSpelling(clean) == ["macos-arm64"]
  {
    assert "macos" + "-arm64" == "macos-arm64";
    assert "darwin" + "-arm64" == "darwin-arm64";
  }

  lemma WindowsX64(clean: string)
    requires Spelled(clean, Windows, X64)
    ensures KeysOfSpelling(clean) == ["windows-x64"]
  {
    assert "windows" + "-x64" == "windows-x64" && "windows" + "-amd64" == "windows-amd64";
  }

  lemma WindowsArm64(clean: string)
    requires Spelled(clean, Windows, Arm64)
    ensures KeysOfSpelling(clean) == ["windows-arm64"]
  {
    assert "windows" + "-arm64" == "windows-arm64";
  }

  lemma RowFor(clean: string) returns (os: Os, arch: Arch)
    requires clean != "universal" && KeysOfSpelling(clean) != []
    ensures Spelled(clean, os, arch)
  {
    os, arch := Linux, Arm64;
    match clean
    case "darwin-amd64" => os, arch := MacOs, X64;
    case "macos-amd64" => os, arch := MacOs, X64;
    case "darwin-x64" => os, arch := MacOs, X64;
    case "macos-x64" => os, arch := MacOs, X64;
    case "darwin-arm64" => os := MacOs;
    case "macos-arm64" => os := MacOs;
    case "linux-amd64" => arch := X64;
    case "linux-x64" => arch := X64;
    case "windows-amd64" => os, arch := Windows, X64;
    case "windows-x64" => os, arch := Windows, X64;
    case "windows-arm64" => os := Windows;
    case _ =>
  }

  // ------------------------------------------------------------------- files

  lemma ProperIsSafe(file: Artifact)
    requires ProperFile(file)
    ensures Safe(file.platformKey) && Safe(file.role)
  {
    forall i | 0 <= i < |file.platformKey| ensures PlatformChar(file.platformKey[i]) {
      assert file.platformKey[i] in file.platformKey;
    }
    forall i | 0 <= i < |file.role| ensures PlatformChar(file.role[i]) {
      assert file.role[i] in file.role;
    }
  }

  /** The package is marked with the role of a file. */
  predicate Marked(rest: Fields, role: string) {
    && "x-zenmind-artifact" in rest
    && match rest["x-zenmind-artifact"]
       case Str(text) => TrimSpace(text) == role
       case Scalar(_, printed, _) => TrimSpace(printed) == role
       case _ => false
  }

  lemma RoleIsMarked(p: Package, role: string)
    requires p.Spec? && Safe(role) && role != ""
    ensures BindingRole(p) == role <==> Marked(p.rest, role)
  {
    assert PlatformChar(role[0]);
  }

  // ----------------------------------------------------------------- binding

  predicate MarkedAt(packages: seq<Package>, role: string, i: nat) {
    i < |packages| && packages[i].Spec? && Marked(packages[i].rest, role)
  }

  /** Just one of the packages is marked with the role. */
  ghost predicate MarkedOnce(packages: seq<Package>, role: string) {
    exists i :: MarkedAt(packages, role, i) && forall j :: MarkedAt(packages, role, j) ==> j == i
  }

  /** The package asks for no file. */
  predicate AsksForNone(p: Package) {
    !p.Spec? || "x-zenmind-artifact" !in p.rest
    || match p.rest["x-zenmind-artifact"]
       case Null => true
       case Str(text) => Blank(text)
       case Scalar(_, printed, _) => Blank(printed)
       case _ => false
  }

  lemma RoleIsBlank(p: Package)
    ensures BindingRole(p) == "" <==> AsksForNone(p)
  {
    if p.Spec? && "x-zenmind-artifact" in p.rest {
      match p.rest["x-zenmind-artifact"]
      case Str(text) => BlankIsEmpty(text);
      case Scalar(_, printed, _) => BlankIsEmpty(printed);
      case _ =>
    }
  }

  lemma {:induction false} BoundIncreases(packages: seq<Package>, role: string, i: nat, j: nat)
    requires i < j < |Bound(packages, role)|
    ensures Bound(packages, role)[i] < Bound(packages, role)[j]
  {
    var n := |packages| - 1;
    if j < |Bound(packages[..n], role)| {
      BoundIncreases(packages[..n], role, i, j);
    } else {
      BoundPositions(packages[..n], role);
      assert Bound(packages[..n], role)[i] in Bound(packages[..n], role);
    }
  }

  lemma BoundAre(packages: seq<Package>, role: string, i: nat)
    requires Safe(role) && role != ""
    ensures i in Bound(packages, role) <==> MarkedAt(packages, role, i)
  {
    BoundPositions(packages, role);
    if i < |packages| && packages[i].Spec? {
      RoleIsMarked(packages[i], role);
    }
  }

  lemma BoundIsMarkedOnce(packages: seq<Package>, role: string)
    requires Safe(role) && role != "" && |Bound(packages, role)| == 1
    ensures MarkedOnce(packages, role)
  {
    var i := Bound(packages, role)[0];
    BoundAre(packages, role, i);
    forall j: nat | MarkedAt(packages, role, j) ensures j == i {
      BoundAre(packages, role, j);
      TheOnlyOne(Bound(packages, role), j);
    }
  }

  lemma TheOnlyOne(found: seq<nat>, j: nat)
    requires |found| == 1 && j in found
    ensures j == found[0]
  {
  }

  lemma MarkedIsBoundOnce(packages: seq<Package>, role: string, i: nat)
    requires Safe(role) && role != "" && MarkedAt(packages, role, i)
    requires forall j :: MarkedAt(packages, role, j) ==> j == i
    ensures |Bound(packages, role)| == 1
  {
    BoundAre(packages, role, i);
    if |Bound(packages, role)| > 1 {
      BoundAt(packages, role, 0);
      BoundAt(packages, role, 1);
      BoundIncreases(packages, role, 0, 1);
    }
  }

  lemma BoundAt(packages: seq<Package>, role: string, k: nat)
    requires Safe(role) && role != "" && k < |Bound(packages, role)|
    ensures MarkedAt(packages, role, Bound(packages, role)[k])
  {
    BoundAre(packages, role, Bound(packages, role)[k]);
  }

  lemma BoundOnce(packages: seq<Package>, role: string)
    requires Safe(role) && role != ""
    ensures |Bound(packages, role)| == 1 <==> MarkedOnce(packages, role)
  {
    if |Bound(packages, role)| == 1 {
      BoundIsMarkedOnce(packages, role);
    }
    if MarkedOnce(packages, role) {
      var i :| MarkedAt(packages, role, i) && forall j :: MarkedAt(packages, role, j) ==> j == i;
      MarkedIsBoundOnce(packages, role, i);
    }
  }

  /** A manifest takes a file when just one of its packages is marked with the file's role
      and the file's platform has a key; without a file no package may ask for one. */
  lemma FilesAreTaken(site: Site, piece: Piece)
    requires ProperPiece(piece)
    ensures var call := CallOf(site, piece);
      Prepared(call.doc, call.upload).Some? <==>
        if piece.file.Some? then
          && piece.doc.packages.Some? && MarkedOnce(piece.doc.packages.value, piece.file.value.role)
          && exists key :: ForKey(SanitizePlatform(piece.file.value.platformKey), key)
        else piece.doc.packages.Some? ==> forall p :: p in piece.doc.packages.value ==> AsksForNone(p)
  {
    if piece.file.None? {
      NoneAreAsked(piece.doc);
    } else {
      ProperIsSafe(piece.file.value);
      SomeKey(piece.file.value.platformKey);
      if piece.doc.packages.Some? {
        BoundOnce(piece.doc.packages.value, piece.file.value.role);
      }
    }
  }

  lemma SomeKey(platform: string)
    ensures PlatformKeysOf(platform) != [] <==> exists key :: ForKey(SanitizePlatform(platform), key)
  {
    if PlatformKeysOf(platform) != [] {
      KeysOfPlatform(platform, PlatformKeysOf(platform)[0]);
    }
    if key :| ForKey(SanitizePlatform(platform), key) {
      KeysOfPlatform(platform, key);
    }
  }

  lemma NoneAreAsked(doc: Document)
    ensures HasBinding(doc) <==> doc.packages.Some? && exists p :: p in doc.packages.value && !AsksForNone(p)
  {
    if doc.packages.Some? {
      forall p | p in doc.packages.value ensures BindingRole(p) == "" <==> AsksForNone(p) {
        RoleIsBlank(p);
      }
    }
  }

  predicate ListsAs(field: Option<Fields>, key: string, value: Value) {
    field.Some? && key in field.value && field.value[key] == value
  }

  /** Under the key, the package has the hash and the archive of the file, and a location
      that leads back to it unless none can. */
  ghost predicate GivenUnder(p: Package, key: string, site: Site, file: Artifact)
    requires p.Spec?
  {
    && ListsAs(p.sha256, key, Str(file.sha256))
    && ListsAs(p.archive, key, Map(map["format" := Str(file.archiveType), "strip" := Scalar("int", "0", false)]))
    && p.from.Some? && key in p.from.value && p.from.value[key].Str?
    && (LeadsTo(p.from.value[key].text, site, file.platformKey)
        <==> PlainText(site.version) && site.key.itemType != SoftwarePackage)
    && p.platforms.Some? && exists listed :: listed in p.platforms.value && TrimSpace(listed) == key
  }

  ghost predicate GivenIn(p: Package, site: Site, file: Artifact) {
    && p.Spec? && Marked(p.rest, file.role)
    && forall key :: ForKey(SanitizePlatform(file.platformKey), key) ==> GivenUnder(p, key, site, file)
  }

  /** A package of the file's role gives the file. */
  ghost predicate GivesFile(doc: Document, site: Site, file: Artifact) {
    doc.packages.Some? && exists i :: 0 <= i < |doc.packages.value| && GivenIn(doc.packages.value[i], site, file)
  }

  /** What the public reads under the version, if it reads anything. */
  function PublicDoc(read: string -> Option<Document>, t: Tables, version: string): Option<Document> {
    var text := GetADPYAML(t, version);
    if text.Some? then read(text.value) else None
  }

  lemma EntryIsPackage(doc: Document, id: string) returns (i: nat)
    requires Readable(doc) && id in ManifestOf(doc).entries
    ensures i < |doc.packages.value| && EntryOf(doc.packages.value[i]) == ManifestOf(doc).entries[id]
  {
    EntryNamed(doc.packages.value, id);
    i :| i < |doc.packages.value| && PackageId(doc.packages.value[i]) == Some(id);
    EntryAt(doc.packages.value, i, id);
  }

  /** The package an upload is bound to is marked with its role, and stays so. */
  lemma BoundIsMarked(c: Call, u: Manifest)
    requires Uploads(c) && Safe(c.upload.value.role)
    requires Prepared(c.doc, c.upload).Some? && Prepared(c.doc, c.upload).value.packages.Some?
    requires Below(ManifestOf(Prepared(c.doc, c.upload).value), u)
    ensures BindingOf(c).id in u.entries
    ensures var e := u.entries[BindingOf(c).id]; e.Detailed? && Marked(e.rest, c.upload.value.role)
  {
    var role, b := c.upload.value.role, BindingOf(c);
    var i := Position(c.doc, role);
    RoleIsMarked(c.doc.packages.value[i], role);
    EntryAt(c.doc.packages.value, i, b.id);
    CallBinds(c);
    assert EntryBelow(BindEntry(ManifestOf(c.doc).entries[b.id], b.upload), u.entries[b.id]);
  }

  lemma ListedPlatform(p: Package, key: string)
    requires p.Spec? && key in EntryOf(p).platforms
    ensures p.platforms.Some? && exists listed :: listed in p.platforms.value && TrimSpace(listed) == key
  {
    TrimmingsOrigin(p.platforms.value, key);
  }

  lemma GivenByUpload(p: Package, site: Site, file: Artifact, key: string)
    requires p.Spec? && Safe(site.key.id) && Safe(file.platformKey) && key in PlatformKeysOf(file.platformKey)
    requires HoldsUpload(EntryOf(p), UploadOf(site, file))
    ensures GivenUnder(p, key, site, file)
  {
    DownloadIsRead(site, file.platformKey);
    ListedPlatform(p, key);
  }

  /** Each of the keys maps to location, hash and archive of the upload. */
  predicate HoldsUpload(e: Entry, upload: Upload) {
    && e.Detailed? && e.from.Some? && e.sha256.Some? && e.archive.Some?
    && forall key :: key in upload.keys ==> HoldsUnder(e, key, upload)
  }

  predicate HoldsUnder(e: Entry, key: string, upload: Upload)
    requires e.Detailed? && e.from.Some? && e.sha256.Some? && e.archive.Some?
  {
    && key in e.platforms
    && FieldOf(e.from.value, key) == Some(Str(upload.url))
    && FieldOf(e.sha256.value, key) == Some(Str(upload.sha256))
    && FieldOf(e.archive.value, key) == Some(ArchiveSpec(upload))
  }

  lemma HeldPackage(p: Package, site: Site, file: Artifact)
    requires p.Spec? && Safe(site.key.id) && Safe(file.platformKey)
    requires Marked(p.rest, file.role) && HoldsUpload(EntryOf(p), UploadOf(site, file))
    ensures GivenIn(p, site, file)
  {
    forall key | ForKey(SanitizePlatform(file.platformKey), key) ensures GivenUnder(p, key, site, file) {
      KeysOfPlatform(file.platformKey, key);
      GivenByUpload(p, site, file, key);
    }
  }

  lemma StoredGivesFile(site: Site, pieces: seq<Piece>, i: nat)
    requires pieces != [] && i < |pieces| && pieces[i].file.Some? && Pipeline(CallsOf(site, pieces)).Some?
    requires Safe(site.key.id) && ProperFile(pieces[i].file.value)
    ensures GivesFile(Pipeline(CallsOf(site, pieces)).value, site, pieces[i].file.value)
  {
    var calls, file := CallsOf(site, pieces), pieces[i].file.value;
    var doc := Pipeline(calls).value;
    ProperIsSafe(file);
    FileIsUpload(site, pieces[i]);
    PipelineExactly(calls);
    StoredContent(calls, i);
    StoredKeepsAll(calls, i);
    BoundIsMarked(calls[i], ManifestOf(doc));
    var k := EntryIsPackage(doc, BindingOf(calls[i]).id);
    assert HoldsUpload(EntryOf(doc.packages.value[k]), UploadOf(site, file));
    HeldPackage(doc.packages.value[k], site, file);
  }

  // -------------------------------------------------------------- every run

  /** What the public reads of a version is what its calls made. */
  lemma PublicIsStored(read: string -> Option<Document>, site: Site, steps: seq<Step>, done: seq<bool>,
                       states: seq<Tables>, n: nat)
    requires ProperSite(site) && HandledRun(read, site, steps, done, states) && n <= |steps|
    requires GetADPYAML(states[n], site.version).Some?
    ensures PiecesAt(steps, done, n) != []
    ensures Pipeline(CallsOf(site, PiecesAt(steps, done, n))).Some?
    ensures PublicDoc(read, states[n], site.version) == Pipeline(CallsOf(site, PiecesAt(steps, done, n)))
  {
    VersionHoldsPipeline(read, site, steps, done, states, n);
    PublicReadsStored(states[n], site.version);
  }

  /** In every run, what the public reads of a version is a sound manifest. */
  lemma PublicManifestIsSound(read: string -> Option<Document>, site: Site, steps: seq<Step>, done: seq<bool>,
                              states: seq<Tables>, n: nat)
    requires ProperSite(site) && HandledRun(read, site, steps, done, states) && n <= |steps|
    requires GetADPYAML(states[n], site.version).Some?
    ensures PublicDoc(read, states[n], site.version).Some?
    ensures Sound(PublicDoc(read, states[n], site.version).value)
  {
    PublicIsStored(read, site, steps, done, states, n);
    StoredIsSound(CallsOf(site, PiecesAt(steps, done, n)));
  }

  /** A readable version whose calls sent a file has a manifest. */
  lemma PublicIsThere(read: string -> Option<Document>, site: Site, steps: seq<Step>, done: seq<bool>,
                      states: seq<Tables>, n: nat)
    requires ProperSite(site) && HandledRun(read, site, steps, done, states) && n <= |steps|
    requires ReadableVersion(states[n], site.version) && PiecesAt(steps, done, n) != []
    ensures GetADPYAML(states[n], site.version).Some?
  {
    VersionHoldsPipeline(read, site, steps, done, states, n);
    PublicReadsStored(states[n], site.version);
  }

  /** In every run it gives each file of the calls it was made of, with the file's own hash
      and archive, under the keys of its platform. */
  lemma PublicManifestGivesFile(read: string -> Option<Document>, site: Site, steps: seq<Step>, done: seq<bool>,
                                states: seq<Tables>, n: nat, i: nat)
    requires ProperSite(site) && HandledRun(read, site, steps, done, states) && n <= |steps|
    requires ReadableVersion(states[n], site.version) && Safe(site.key.id)
    requires i < |PiecesAt(steps, done, n)| && PiecesAt(steps, done, n)[i].file.Some?
    ensures PublicDoc(read, states[n], site.version).Some?
    ensures GivesFile(PublicDoc(read, states[n], site.version).value, site, PiecesAt(steps, done, n)[i].file.value)
  {
    PublicIsThere(read, site, steps, done, states, n);
    PublicIsStored(read, site, steps, done, states, n);
    PiecesAreProper(read, site, steps, done, states, n);
    StoredGivesFile(site, PiecesAt(steps, done, n), i);
  }

  /** In undisturbed runs it gives the file that is served for each platform. */
  lemma ServedFileIsGiven(read: string -> Option<Document>, site: Site, steps: seq<Step>, done: seq<bool>,
                          states: seq<Tables>, n: nat, i: nat)
    requires ProperSite(site) && HandledRun(read, site, steps, done, states) && Undisturbed(steps, done) && n <= |steps|
    requires ReadableVersion(states[n], site.version) && Safe(site.key.id)
    requires i < |AllPieces(steps, done, n)| && AllPieces(steps, done, n)[i].file.Some?
    ensures var served := GetArtifact(states[n], site.version, AllPieces(steps, done, n)[i].file.value.platformKey);
      && served.Some? && PublicDoc(read, states[n], site.version).Some?
      && GivesFile(PublicDoc(read, states[n], site.version).value, site, served.value)
  {
    var pieces := AllPieces(steps, done, n);
    var platform := pieces[i].file.value.platformKey;
    RunServes(read, site, steps, done, states, n);
    assert Serving(states[n], site.version, pieces, platform);
    var j :| 0 <= j < |pieces| && pieces[j].file == Some(states[n].artifacts[(site.version, platform)].artifact);
    UndisturbedKeepsAll(steps, done, n);
    PublicManifestGivesFile(read, site, steps, done, states, n, j);
  }
}
